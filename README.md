# SmartSpend-AI ledger and analytics, modelled in Dafny

SmartSpend-AI is a personal finance tracker written in React and TypeScript.
Users record income and expense transactions. The dashboard shows totals and
the five most recent entries. Two charts break the expenses down: a pie by
category and a bar chart over the current Sunday-to-Saturday week. An
assistant panel primes a chat session with a financial summary and keeps a
message log. A form adds transactions. It can take values from a scanned
receipt and from a category suggestion.

This project models the part of the system that computes:

- `Types` (`types.dfy`): the transaction record, the twelve categories, the two
  transaction types, the insight and receipt records.
- `Ledger` (`ledger.dfy`): the `App` component's state as a class. Adding
  prepends a record. Deleting filters by id. The currency symbol toggles. The
  totals and the recent-five slice are functions of the list.
- `Charts` (`charts.dfy`): the expense pie aggregation, with a method that
  runs the source's dictionary-building loop. The weekly buckets are built
  from calendar arithmetic on a reference date.
- `Chat` (`chat.dfy`): the summary the chat session is created with, and the
  `ChatBot` component's state as a class. The summary holds the balance with
  its opening offset, the category totals, the top five categories and the
  ten newest transactions. Sending appends to an alternating message log.
- `Form` (`form.dfy`): the `TransactionForm` fields as a class. It covers the
  submit guard, the receipt merge, accepting a suggested category, and
  amount text converted to a number and back.

Supporting modules:

- `Numbers`: JavaScript numbers as exact cents or NaN.
- `Seqs`: filter and sum.
- `Sorting`: the stable descending sort, as a function and as an in-place array method.
- `Grouping`: categories in order of first appearance.
- `Calendar`: proleptic Gregorian day numbers, the week, and `YYYY-MM-DD` strings.
- `Text`: digits, padding, `trim`.
- `Options`: an optional value.

Amounts are whole numbers of cents (`Finite(minor)`) or `NaN`. Each place in
the source converts an amount in its own way, and the model keeps each one:

| place | conversion | model |
|---|---|---|
| the pie | `Number(x) \|\| 0`: a non-numeric amount counts as 0 | `Charts.CoercedAmount` |
| the weekly buckets and the chat totals | bare `Number(x)`: a NaN makes the whole sum NaN | `Numbers.Plus` |
| the chat's category totals | `(acc[c] \|\| 0) + Number(x)`: the total starts again after a NaN | `Chat.RunningTotal` |

Every sort in the source is `Array.prototype.sort` with a comparator of the
form `key(b) - key(a)`. This sort is stable as of ECMAScript 2019. The model
is a stable insertion sort that follows that comparator. Three things are
proved about it:

- it returns a permutation of its input;
- elements with equal keys keep their relative order;
- when every key is a number, the result is non-increasing.

The dashboard totals (`App.tsx:98-102`) add the raw amounts and apply no
opening balance; only the chat summary (`components/ChatBot.tsx:44`) adds
`initialBalance`. The model does the same.

The clock, the random id, the Gemini replies and the stored values are
parameters of the model.

## Model

| member | source | states |
|---|---|---|
| Types.CategoryNamed | types.ts:3-15 | a string is read as a category only when it is that category's name |
| Types.CategoryNamedIff | types.ts:3-15 | a string reads as category c exactly when it is c's name |
| Types.CategoriesClosed | types.ts:3-15 | the category type has exactly twelve values, all listed once, with twelve different names |
| Types.WithId | App.tsx:89 | the new record has the given id and every submitted field unchanged |
| Types.WithIdDraftOf | App.tsx:88-89 | adding an id and dropping it again are inverse: a record is its fields plus its id |
| Ledger.Without | App.tsx:95 | `prev.filter(t => t.id !== id)`; its meaning is stated by Ledger.WithoutKeeps, Ledger.WithoutCounts and Ledger.WithoutIdempotent |
| Ledger.WithoutKeeps | App.tsx:94-96 | deleting keeps exactly the entries with another id, leaves no entry with that id, and works piecewise over concatenation, so order is kept |
| Ledger.WithoutCounts | App.tsx:95 | deleting keeps each entry with another id exactly as many times as it occurs, and none with that id |
| Ledger.WithoutAbsent | App.tsx:95 | deleting an id that is not in the list leaves the list unchanged |
| Ledger.WithoutIdempotent | App.tsx:95 | deleting the same id twice is the same as deleting it once |
| Ledger.AddThenDelete | App.tsx:88-96 | adding a record with a fresh id and then deleting that id gives back the original list |
| Ledger.DeleteOne | App.tsx:95 | with unique ids, deleting a present id removes exactly one entry |
| Ledger.UniqueIdsKept | App.tsx:88-96 | adding a record with a fresh id, or deleting any id, keeps the ids unique |
| Ledger.WithoutUnique | App.tsx:95 | deleting from a list with unique ids leaves the ids unique |
| Ledger.UniqueCons | App.tsx:90 | prepending a record whose id is not in a unique-id list keeps the ids unique |
| Ledger.KindSum | App.tsx:99-100 | the sum of the amounts of one type, in list order, NaN poisoning the sum; stated by Ledger.TotalsAppend and Ledger.TotalsCoverAll |
| Ledger.TotalsOf | App.tsx:98-102 | income, expense and balance = income - expense with no offset; stated by Ledger.TotalsAppend and Ledger.TotalsCoverAll |
| Ledger.TotalsAppend | App.tsx:98-102 | the income and expense totals of two lists put together are the sums of their totals |
| Ledger.TotalsCoverAll | App.tsx:98-102 | income plus expense is the sum of all amounts; the balance is a number exactly when every amount is |
| Ledger.KindsCoverAll | types.ts:1 | every transaction is income or expense, so the two filters together cover the list |
| Ledger.Toggled | App.tsx:85 | `$` becomes `₹` and anything else becomes `$`; stated by Ledger.ToggledTwice |
| Ledger.ToggledTwice | App.tsx:84-86 | toggling always changes the symbol and lands on `$` or `₹`; toggling twice from either returns to it |
| Ledger.StoredCurrency | services/storageService.ts:37-39 | the loaded symbol is never empty and is the saved one whenever that is not empty |
| Ledger.RecentOf | App.tsx:158 | `transactions.slice(0, 5)`; stated by Ledger.RecentShape |
| Ledger.RecentShape | App.tsx:158 | the recent list is the first min(5, n) entries, and a newly added record heads it |
| Ledger.App.constructor | App.tsx:49-53 | the ledger starts empty, with symbol `$` and the add dialog closed |
| Ledger.App.Load | App.tsx:57-65 | loading sets the stored list and the stored symbol; the dialog is unchanged |
| Ledger.App.ToggleCurrency | App.tsx:84-86 | the symbol is toggled; the list and the dialog are unchanged |
| Ledger.App.OpenAddModal | App.tsx:306 | the add dialog opens; nothing else changes |
| Ledger.App.CloseAddModal | App.tsx:322-323 | the add dialog closes; nothing else changes |
| Ledger.App.AddTransaction | App.tsx:88-92 | the list becomes the new record followed by the old list; the dialog closes; the symbol is unchanged; unique ids stay unique when the id is fresh |
| Ledger.App.DeleteTransaction | App.tsx:94-96 | the list becomes the old list without that id; no entry with the id remains; unique ids stay unique; nothing else changes |
| Grouping.Expenses | components/Charts.tsx:108 | the expense filter; stated by Grouping.ExpenseMembers |
| Grouping.Group | components/Charts.tsx:112-122 | one category's transactions in list order, as the accumulator's array collects them; stated by Grouping.GroupAbsent and Grouping.CategoriesCover |
| Grouping.CategoriesInOrder | components/Charts.tsx:111-127 | the dictionary's keys in insertion order; stated by Grouping.CategoriesMembers and Grouping.CategoriesPrefix |
| Grouping.CategoriesMembers | components/Charts.tsx:111-127 | the categories listed for a list are distinct, include every category that occurs, and nothing else |
| Grouping.CategoriesPrefix | components/Charts.tsx:111-127 | first-appearance order: the categories of a prefix of the list are a prefix of the categories of the whole list |
| Grouping.GroupAbsent | components/Charts.tsx:111-124 | a category that is not listed has no transactions |
| Grouping.CategoriesCover | components/Charts.tsx:111-124 | every transaction falls in the group of a listed category |
| Grouping.ExpenseCategory | components/Charts.tsx:108-118 | a category is listed for the expenses exactly when some expense has it |
| Grouping.ExpenseMembers | components/Charts.tsx:108 | the expenses are exactly the transactions of type expense |
| Charts.CoercedAmount | components/Charts.tsx:120 | a pie amount is always a number: the stored amount when it is one, 0 otherwise |
| Charts.SliceOf | components/Charts.tsx:127-134 | one slice: the category, its coerced total, its group sorted, the first three; stated by Charts.PieTop and Charts.PieTotal |
| Charts.PieData | components/Charts.tsx:127-134 | one slice per expense category, in order of first appearance, each built from that category's expenses |
| Charts.Aggregate | components/Charts.tsx:111-124 | the reduce loop leaves one dictionary entry per expense category, in insertion order, holding the category's coerced total and its expenses in list order |
| Charts.BuildSlices | components/Charts.tsx:127-134 | mapping over the dictionary gives, for each key in order, that category's slice |
| Charts.ExpensePieData | components/Charts.tsx:107-134 | the imperative aggregation computes exactly the pie data |
| Charts.PieEmpty | components/Charts.tsx:136 | the pie data is empty, so the empty state shows, exactly when there is no expense |
| Charts.PieCategories | components/Charts.tsx:111-127 | no category has two slices, and a category has a slice exactly when some expense has it |
| Charts.PieTotal | components/Charts.tsx:119-121 | every slice value is a number, and the slice values add up to the coerced total of all expenses |
| Charts.PieTop | components/Charts.tsx:131-133 | each slice's top list has min(3, group size) entries, all expenses of that category; when the amounts are numbers they are the largest (no expense of the category left out is larger than one kept), largest first; equal amounts keep their order; the slice's list is a permutation of the group |
| Charts.BucketOf | components/Charts.tsx:178-199 | one day's bucket: weekday label, date string, income and expense of exact-string matches, top three expenses; stated by Charts.EmptyBucket, Charts.BucketTop and Charts.WeeklyTotals |
| Charts.WeekStrings | components/Charts.tsx:169-176 | seven date strings, the formatted dates of the week |
| Charts.WeeklyData | components/Charts.tsx:178-200 | seven buckets, one per date of the week, none dropped |
| Charts.WeeklyShape | components/Charts.tsx:169-199 | the labels run Sun to Sat; the seven date strings are distinct; today's string sits at its weekday's index; each string reads back as its date |
| Charts.EmptyBucket | components/Charts.tsx:178-187 | a day without transactions has zero income, zero expense and no top expenses |
| Charts.BucketTop | components/Charts.tsx:184-187 | a day's top list has min(3, n) of the n expenses dated that day; when the amounts are numbers they are the largest (none left out is larger than one kept), largest first; equal amounts keep their order |
| Charts.BucketSumCommutes | components/Charts.tsx:179-181 | filtering by date and then by type sums to the same as filtering by type and then by date |
| Charts.WeeklyTotals | components/Charts.tsx:178-199 | the buckets' incomes, and their expenses, add up to the totals of the transactions dated in the week |
| Calendar.Weekday | components/Charts.tsx:165 | the weekday is in 0..6, 0 being Sunday |
| Calendar.DayNumberInjective | components/Charts.tsx:169-176 | different valid dates have different day numbers |
| Calendar.NextDay | components/Charts.tsx:171 | the day after a valid date is a valid date one day later |
| Calendar.PrevDay | components/Charts.tsx:167 | the day before a valid date is a valid date one day earlier |
| Calendar.Shift | components/Charts.tsx:167-171 | moving a valid date by k days gives a valid date k days away |
| Calendar.SetDate | components/Charts.tsx:167 | `setDate(n)` on a date gives the valid date n - 1 days after the first of its month, overflow and underflow included |
| Calendar.WeekStart | components/Charts.tsx:164-167 | the week starts on the Sunday on or before today: the start plus today's weekday is today |
| Calendar.WeekDates | components/Charts.tsx:169-171 | seven valid dates on consecutive days from the week's start |
| Calendar.WeekShape | components/Charts.tsx:164-176 | the i-th date of the week falls on weekday i, and today sits at its own weekday's index |
| Calendar.WeekDistinct | components/Charts.tsx:169-176 | the seven dates of the week are distinct |
| Calendar.FormatIso | components/Charts.tsx:172-175 | the year, then month and day padded to two digits, joined by `-`; stated by Calendar.FormatIsoInjective and Calendar.ParseFormatIso |
| Calendar.ParseIso | components/ChatBot.tsx:62 | a string is read as a date only when it is shaped `YYYY-MM-DD` and names a real date |
| Calendar.FormatIsoInjective | components/Charts.tsx:172-175 | different valid dates format to different strings |
| Calendar.ParseFormatIso | components/Charts.tsx:172-191 | a formatted four-digit-year date is shaped `YYYY-MM-DD` and reads back as the same date |
| Calendar.WeekdayName | components/Charts.tsx:194 | a date's label is one of the seven short weekday names |
| Text.NatToStringValue | components/Charts.tsx:172-175 | the decimal digits of `String(n)` read back as n |
| Text.NatToStringInjective | components/Charts.tsx:172 | different numbers have different decimal strings |
| Text.NatToStringFour | components/Charts.tsx:172 | a four-digit year formats to four characters |
| Text.PadStart | components/Charts.tsx:173-174 | `padStart` gives at least the width, pad characters in front of the unchanged text |
| Text.Pad2Value | components/Charts.tsx:173-174 | a number below 100, padded to two, is two digits that read back as the number |
| Text.Pad2Injective | components/Charts.tsx:173-174 | different months or days pad to different strings |
| Text.Trim | components/ChatBot.tsx:86-88 | `String.prototype.trim` with the ECMAScript white-space set; stated by Text.TrimShape, Text.TrimEmpty and Text.TrimIdempotent |
| Text.TrimShape | components/ChatBot.tsx:86-88 | `trim` returns a slice of its input with only white space around it, neither starting nor ending with white space |
| Text.TrimEmpty | components/ChatBot.tsx:86 | the trimmed input is empty exactly when the input is all white space |
| Text.TrimmedIff | components/ChatBot.tsx:88 | `trim` leaves a text unchanged exactly when it neither starts nor ends with white space |
| Text.TrimIdempotent | components/ChatBot.tsx:88 | trimming twice is trimming once |
| Sorting.SortDesc | components/Charts.tsx:132 | the sorted list is a permutation of the input |
| Sorting.InsertPermutes | components/Charts.tsx:132 | inserting an element adds exactly that element |
| Sorting.SortDescDescending | components/Charts.tsx:132 | with every key a number, the sorted list is non-increasing |
| Sorting.SortDescStable | components/Charts.tsx:132 | the elements with any one key keep their relative order |
| Sorting.TopOfSorted | components/Charts.tsx:132-133 | the first n of the sorted list are min(n, len) elements of the input; when keys are numbers they have the greatest keys (nothing left out has a greater key than anything kept) and are non-increasing; equal keys keep input order |
| Sorting.TopIsLargest | components/Charts.tsx:132-133 | with every key a number, no element left out of the first n of the sorted list has a greater key than one kept |
| Sorting.Take | components/Charts.tsx:133 | `slice(0, n)` is the prefix of length min(n, len) |
| Sorting.SortDescInPlace | components/ChatBot.tsx:61-62 | sorting the array in place leaves in it the sorted sequence of its old contents |
| Sorting.InsertInPlace | components/ChatBot.tsx:62 | one insertion step keeps the sorted prefix and puts the next element in its place |
| Chat.RunningTotal | components/ChatBot.tsx:49-51 | `(acc[c] \|\| 0) + Number(t.amount)` folded over one category's expenses; stated by Chat.RunningTotalFinite and Chat.RunningTotalAfterNaN |
| Chat.RunningTotalFinite | components/ChatBot.tsx:49-51 | with every amount a number, a category's running total is the plain sum of its amounts |
| Chat.RunningTotalAfterNaN | components/ChatBot.tsx:50 | after a NaN amount, the total is NaN if it was the last one; otherwise the total restarts from the amounts after it |
| Chat.Tally | components/ChatBot.tsx:47-52 | the reduce loop leaves one entry per expense category, in insertion order, holding that category's running total |
| Chat.CategoryTotals | components/ChatBot.tsx:47-54 | the `Object.entries` of the category totals, in insertion order; stated by Chat.CategoryTotalsShape |
| Chat.CategoryTotalsOf | components/ChatBot.tsx:47-54 | the imperative tally gives exactly the category totals' entries |
| Chat.CategoryTotalsShape | components/ChatBot.tsx:47-54 | no category appears twice; a category appears exactly when some expense has it; its total is its running total, which is the sum of its amounts when they are numbers |
| Chat.TopCategories | components/ChatBot.tsx:54-56 | the totals sorted largest first, cut to five; stated by Chat.TopCategoriesShape |
| Chat.TopCategoriesShape | components/ChatBot.tsx:54-56 | the top list has min(5, n) entries drawn from the totals; when the totals are numbers they are the largest (no entry left out has a larger total than one kept), largest first; equal totals keep their order |
| Chat.DateKey | components/ChatBot.tsx:62 | `new Date(t.date).getTime()`: milliseconds from 1970-01-01 for a real `YYYY-MM-DD` date, NaN otherwise; stated by Chat.DateKeyOrder |
| Chat.DateKeyOrder | components/ChatBot.tsx:62 | for real dates, one time value is greater exactly when its date is later, and equal exactly when the dates are equal |
| Chat.NewestTen | components/ChatBot.tsx:61-63 | the list sorted newest first, cut to ten; stated by Chat.NewestTenShape |
| Chat.NewestTenShape | components/ChatBot.tsx:61-63 | the recent list has min(10, n) transactions of the list; when every date is real they are the newest (none left out is dated later than one kept), newest first; same-day transactions keep their order |
| Chat.LeftOutDates | components/ChatBot.tsx:62-63 | for real dates, cutting the list by time value leaves out nothing dated later than what is kept |
| Chat.SortedDates | components/ChatBot.tsx:62 | a list sorted by finite time values has its dates newest first |
| Chat.ContextOf | components/ChatBot.tsx:42-65 | the summary's figures: currency, balance with the opening offset, income, expense, top categories, recent transactions; stated by Chat.ContextFigures |
| Chat.ContextFigures | components/ChatBot.tsx:42-44 | the summary's income and expense are the dashboard's; its balance is the opening balance plus the dashboard's balance; it is a number exactly when the opening balance and every amount are |
| Chat.ReplyText | components/ChatBot.tsx:94-100 | the model message is never empty: the reply's text when it has some, the fallback when it is empty, the network error when the call failed |
| Chat.LogAppendUser | components/ChatBot.tsx:88-89 | appending a non-empty trimmed user message to a settled log gives a log awaiting a reply |
| Chat.LogAppendModel | components/ChatBot.tsx:97-100 | appending a non-empty model message to an awaiting log settles it |
| Chat.ChatBot.constructor | components/ChatBot.tsx:19-26 | the panel starts closed, with the greeting as its only message, empty input, not loading, no session |
| Chat.ChatBot.Toggle | components/ChatBot.tsx:110 | the panel opens or closes; nothing else changes |
| Chat.ChatBot.SetInput | components/ChatBot.tsx:167-170 | the input takes the typed text, which is possible only while not loading; nothing else changes |
| Chat.ChatBot.Refresh | components/ChatBot.tsx:38-82 | when open, the passed array ends sorted newest first in place and the session holds the summary of the old list; when closed, nothing changes |
| Chat.ChatBot.Send | components/ChatBot.tsx:84-91 | a blank input or a missing session changes nothing; otherwise the trimmed question is appended, the input cleared and loading set |
| Chat.ChatBot.Receive | components/ChatBot.tsx:93-103 | exactly one model message is appended, the reply's text, and loading ends |
| Chat.ChatBot.HandleSend | components/ChatBot.tsx:84-104 | a blank input or no session changes nothing; otherwise the log grows by exactly the trimmed question and one model message, the input is cleared and loading is off |
| Form.CentsText | components/TransactionForm.tsx:20 | the fraction text is empty exactly when there are no cents |
| Form.FormatAmount | components/TransactionForm.tsx:20 | the amount's text is never empty |
| Form.LeadingDigits | components/TransactionForm.tsx:33 | the longest prefix of digits: a digits-only prefix followed by a non-digit or the end |
| Form.ParseFloat | components/TransactionForm.tsx:33 | `parseFloat`: leading white space, a sign, the longest decimal literal, NaN when there is none; stated by Form.ParseFormatAmount |
| Form.ParseFormatAmount | components/TransactionForm.tsx:20-33 | parsing the text of an amount gives back the amount, NaN included |
| Form.MagnitudeOfCents | components/TransactionForm.tsx:33 | the digits of a non-negative amount read back as its cents |
| Form.FormCategoriesComplete | components/TransactionForm.tsx:13-16 | the form lists the twelve categories of the type, each once, in another order |
| Form.Listed | components/TransactionForm.tsx:71 | `includes` finds a listed category with that name, or says none has it |
| Form.ListedIsNamed | components/TransactionForm.tsx:71 | a string is in the form's list exactly when it names a category of the type |
| Form.DraftFrom | components/TransactionForm.tsx:29-39 | the submit rule: no draft without amount text and description, otherwise the fields with the amount parsed; stated by Form.TransactionForm.Submit and Form.EditResubmit |
| Form.Accepted | components/TransactionForm.tsx:66-73 | the category a suggestion sets, if any; stated by Form.AcceptedIff |
| Form.EditResubmit | components/TransactionForm.tsx:19-38 | opening the form on a record and submitting untouched gives back that record's fields |
| Form.AcceptedIff | components/TransactionForm.tsx:66-73 | a suggestion is taken exactly when the description is not empty and the suggestion names a category, and then it sets that category |
| Form.TransactionForm.constructor | components/TransactionForm.tsx:19-23 | a new entry starts as an expense in Food with empty amount and description and today's date; an edited entry starts from its own fields |
| Form.TransactionForm.Submit | components/TransactionForm.tsx:29-39 | nothing is submitted exactly when the amount or the description is empty; otherwise the fields go out unchanged, with the amount parsed |
| Form.TransactionForm.ApplyReceipt | components/TransactionForm.tsx:52-56 | each field is overwritten only by a present, non-empty, non-zero result; the type becomes expense |
| Form.TransactionForm.SmartCategorize | components/TransactionForm.tsx:66-79 | the category changes only to an accepted suggestion; nothing else changes |
| Form.TransactionForm.SetKind | components/TransactionForm.tsx:88 | the type switch sets the type only |
| Form.TransactionForm.SetAmount | components/TransactionForm.tsx:111 | typing sets the amount text only |
| Form.TransactionForm.SetDescription | components/TransactionForm.tsx:137 | typing sets the description only |
| Form.TransactionForm.SetCategory | components/TransactionForm.tsx:155-159 | the select sets the category only |
| Form.TransactionForm.SetDate | components/TransactionForm.tsx:169 | the date input sets the date only |

## Left out

- Ledger.TotalsOf: an amount held as a string, such as `"12.50"` read back from storage, makes JavaScript's raw `+` concatenate strings, whatever the text. The model holds every amount as its numeric value (or NaN) and adds it as a number.
- Ledger.App.AddTransaction: `crypto.randomUUID()` is a parameter. The model does not assume the id is fresh. It proves unique ids are kept when the id is fresh.
- Ledger.App.Load: `localStorage`, JSON parsing and the save effects are left out. The loaded list and the saved symbol are parameters.
- Dark mode, the active tab, the insights panel and its Gemini call (`App.tsx:104` onward) are rendering or foreign calls.
- The "Export CSV" button has no handler, and no code sets a balance offset. Neither is modelled.
- Calendar.WeekStart: "today" is a parameter with a year of at least 1. `new Date()`, the local time zone and `getDay` are left out.
- Calendar.WeekdayName: `toLocaleDateString` is a fixed Sun to Sat table.
- Charts.WeeklyShape: reading a date string back is proved for four-digit years only.
- The model does not cover `new Date(y, m - 1, d)` mapping years 0 to 99 onto 1900 to 1999.
- Chat.DateKey: `new Date(s)` is modelled for `YYYY-MM-DD` strings of real dates. Any other string gives NaN, including forms the JavaScript parser would accept.
- Sorting.SortDesc: for a NaN key the comparator returns NaN, and ECMA-262 leaves the order implementation-defined. The model treats NaN as "not greater" and keeps the input order for it. Descending order is proved only when every key is a number.
- Charts.ExpensePieData: each group's in-place sort is modelled on values. The slice's `transactions` holds the group in sorted order, as the shared array does after `sort`. The chat's in-place sort of the passed array is modelled on an array, in Chat.ChatBot.Refresh.
- Chat.ContextOf: the context text built with `toFixed(2)` and the `join` lines is not modelled. The summary keeps the figures.
- `createFinancialChatSession` is not modelled.
- Chat.ChatBot.HandleSend: `sendMessage` is asynchronous. The model splits it into Send and Receive, and the reply is a parameter.
- Form.ParseFloat: `parseFloat` is modelled on leading white space, an optional sign, digits and a fraction. The amount is kept to whole cents, and a third or later fraction digit is dropped. Exponents and `Infinity` are left out.
- Form.FormatAmount: `Number.prototype.toString` is modelled for whole cents, without exponent notation.
- Form.TransactionForm.constructor: the default date is a parameter, not `toISOString` of the clock. An empty stored date also falls back to it, as the source's `||` does.
- Form.TransactionForm.ApplyReceipt: reading the file and the Gemini call are left out. The receipt's category is trusted to be a category, as its type declares.
- The flags `isScanning` and `isCategorizing` only disable buttons, so they are left out.
- Form.TransactionForm.SmartCategorize: the Gemini call and its error path are left out. A failed call is the same as no suggestion.
- Floating point is replaced by exact cents, so rounding effects in sums are not modelled.
