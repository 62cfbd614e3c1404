# SplitBill core, modelled in Dafny

SplitBill is a single-page web app that splits a restaurant bill. The user
photographs a receipt, and the recognised text is parsed into item rows. The
user corrects the rows, enters the people at the table and ticks who shared
each item. The app then shows, and can copy, what each person owes. All of its
logic lives in one script, `app.js`.

This project models the core of that script:

- the **receipt parser**: the skip patterns, the rightmost price on a line,
  the price value, the label and quantity, and the fallback rows;
- the **bill store**: the `state` object with its items, people,
  assignments and two id counters, and the event handlers that change it;
- the **wizard**: the five steps, their `active` markers, and the gates of
  the forward buttons;
- the **split engine**: totals, what each person owes, the ranked summary
  and the copied text;
- **persistence**: what `saveState` writes and how `loadState` falls back to
  defaults.

Modules:

| module | file | what it holds |
|---|---|---|
| `Options` | options.dfy | `Option` with `GetOr` (JavaScript's `x \|\| default`) |
| `Strings` | strings.dfy | `trim`, line splitting, white-space removal, decimal digits, UTF-16 length |
| `Money` | money.dfy | `formatMoney` (`toFixed(2)`), and `Number(text) \|\| 0` on decimal literals |
| `Bills` | bills.dfy | items and people, the list filters, and the referential integrity `Consistent` |
| `Receipt`, `ReceiptFacts` | receipt.dfy | `parseReceiptText` and its helpers, and what they imply |
| `ReceiptExamples` | receipt_examples.dfy | the parser on particular receipt lines |
| `Split` | split.dfy | `getItemTotal`, `getTotalSum`, the owes computation, the summary, the copy text |
| `Wizard` | wizard.dfy | the steps, `showStep`'s markers, and the pruning at the items → people gate |
| `Snapshot` | snapshot.dfy | the stored record, `saveState`'s object, `loadState`'s defaults |
| `Store` | store.dfy | class `Bill`: the page state, whose methods are the handlers |
| `Scenario` | scenario.dfy | a whole three-line receipt, through the parser and the split |

`Store.Bill` carries the page's mutable state as fields:

- `image`, `items`, `people`, `assignments`;
- the counters `nextItemId` and `nextPersonId`;
- `active`, the `active` class of each step element;
- `stored`, what `localStorage` holds.

Each handler is a method with a `modifies` frame. Its `ensures` state the
whole new state. Every handler that changes the rows, the people or the
assignments also keeps the referential integrity,
`old(Integrity()) ==> Integrity()`, with three exceptions: `LoadState` and
`Start`, which take a stored snapshot as it is and promise no integrity, and
`Toggle`, which keeps it only when the ticked person is on the people list
and, when ticking, not already on the item's list.
Each handler that ends with `saveState()` takes a `writable` flag.
`writable == false` stands for a storage that throws, after which the stored
snapshot is unchanged. A price stays text in an item, as in the source.
Numbers are exact: the parser works in integer cents, and totals and shares
are `real`.

Where the code behaves differently from what one might expect, the model follows the code:

- Five of the skip patterns, `/^ОБЩА\s+СУМА$/i` among them, are anchored at
  both ends; `/^БОН:/i` and `/^Пг\.#\d+\s+СУМА/i` are anchored only at the
  start, and `/#сума/i` matches anywhere. A total line that carries its amount, such as "ОБЩА СУМА 16,10", is therefore kept as
  an item (`ReceiptExamples.TotalWithAmountKept`, `Scenario.EndToEnd`).
- The quantity prefix is anchored at the start of the label. "Cola 3x 1,20"
  keeps the label "Cola 3x" with quantity 1 (`ReceiptExamples.QuantityAfterName`).
- The split does not skip items whose total is 0 or negative. Only the
  assign view hides them (`app.js:427`).
- Pruning blank rows at the items → people gate leaves their assignment
  entries in place. The placeholder row that the handler reinserts when
  pruning empties the list can never be needed: the gate already requires a
  row with a positive price, and pruning keeps every such row
  (`Wizard.PruneKeepsPriced`).
- The checkbox handler writes the ticked id without checking it against the
  people list or the item's list. It is the only assignment handler that can
  break integrity: it keeps it only when the ticked person exists and is not
  already on the list (`Store.Bill.Toggle`). The "all" and "none" handlers
  always keep it (`Store.Bill.AssignAll`, `Store.Bill.AssignNone`).
- `loadState` keeps the current value of any field that is missing from the
  stored record. It does not reset that field to a default
  (`Snapshot.RestoreDefaults`).
- The stepper shows any step whose dot is clicked, whether or not it was
  reached before (`Store.Bill.SelectStep`).
- "New bill" removes the snapshot and does not save afterwards.

## Model

| member | source | states |
|---|---|---|
| Strings.IsSpace | app.js:248 | the characters `\s` matches and `trim()` removes: the ECMAScript WhiteSpace and LineTerminator code points; `RemoveSpaces`, `TrimShape` and `FoldKeepsClass` state what follows from it |
| Strings.Trim | app.js:255 | `trim()` never lengthens a string and leaves white space at neither end (`TrimShape` says exactly what it removes) |
| Strings.TrimShape | app.js:255 | `trim()` removes exactly the white space at both ends: the result is a slice of the text, everything outside it is white space, and it neither starts nor ends with white space |
| Strings.TrimIsTrimmed | app.js:255 | a trimmed line has no white space at either end |
| Strings.TrimIdempotent | app.js:230-232 | trimming a line that was already trimmed changes nothing, so `isReceiptSkipLine` tests the line itself |
| Strings.TrimEmpty | app.js:255 | a piece trims to the empty string, and `filter(Boolean)` drops it, exactly when it is all white space |
| Strings.TrimPadded | app.js:255 | trimming a trimmed string with white space added on both sides gives that string back |
| Strings.TrimCr | app.js:255 | a carriage return at the end of a piece changes nothing once the piece is trimmed |
| Strings.Upper | app.js:226-228 | the `i` flag folds lower-case ASCII letters to upper case and leaves upper-case letters, digits and white space alone |
| Strings.UpperCyrillicPairs | app.js:226-228 | the capital-small pairs past the basic Cyrillic letters fold together too: Ѣ and ѣ, Ґ and ґ, Ӏ and ӏ, Ӂ and ӂ, Ӑ and ӑ |
| Strings.UpperIdempotent | app.js:226-228 | a folded character folds to itself, so folding is a canonical form |
| Strings.FoldKeepsClass | app.js:227-228 | characters that fold alike are both digits or neither, both white space or neither |
| Strings.SpanSameFold | app.js:227-228 | a greedy `\d+` or `\s+` ends at the same place in two lines that differ only in letter case |
| Strings.ContainsSameFold | app.js:228 | an unanchored literal such as `#сума` occurs in both or neither of two lines that differ only in letter case |
| Strings.SplitLines | app.js:255 | the text is split into at least one piece, and no piece holds a line break |
| Strings.JoinSplit | app.js:255 | the pieces of a text, joined with line breaks, are the text again: splitting loses nothing |
| Strings.SplitJoin | app.js:553-554 | lines with no break, joined with `'\n'`, split back into the same lines |
| Strings.SplitAppend | app.js:255 | a line followed by a break and more text splits into that line, then the pieces of the rest |
| Strings.SplitCrLf | app.js:255 | `split(/\r?\n/)` gives at least one piece |
| Strings.SplitLinesCrLf | app.js:255 | splitting on line feeds alone gives as many pieces as `split(/\r?\n/)`, each the same or with one carriage return after it |
| Strings.RemoveSpaces | app.js:248 | `replace(/\s/g, '')` leaves no white space, keeps every other character, and turns digits and spaces into digits only |
| Strings.DigitsKept | app.js:248 | removing white space from a digit string leaves it as it is |
| Strings.SpaceThenDigits | app.js:248 | one white-space character before a digit string is all that `replace(/\s/g, '')` removes |
| Strings.DigitsRoundTrip | app.js:88-90 | the decimal digits written for a whole number read back as that number |
| Strings.DigitsValueBound | app.js:249-251 | `n` digits are worth less than `10^n`, so the two decimals of a price are under 100 cents |
| Strings.Utf16Length | app.js:272 | `label.length` counts UTF-16 units: at least one and at most two per character |
| Money.FormatMoney | app.js:88-90 | `Number(n).toFixed(2)`: the nearest number of cents, written with two decimals, and `-` before a negative amount; `RoundCents` and `FormatCents` state what it writes |
| Money.CentsText | app.js:88-90 | what `toFixed(2)` writes for a whole number of cents: the integer part, `.`, two digits; `FormatCents` and `NumericValueOfCents` state that it is exact and reads back as the same cents |
| Money.RoundCents | app.js:88-90 | `toFixed(2)` of a non-negative amount writes the nearest number of cents, rounding a tie up |
| Money.FormatCents | app.js:88-90 | an amount that is a whole number of cents is written exactly, as its integer part, `.` and two digits |
| Money.NumberLiteral | app.js:420 | `Number(t)` for a trimmed, non-empty `t`: an optional sign before an unsigned decimal literal with an optional exponent, `None` (NaN) otherwise; `PlainLiteral` and `DecimalValue` state its values |
| Money.DecimalValue | app.js:247-252 | `Number` of `digits.digits` is the value of that decimal |
| Money.NumericValueOfCents | app.js:276-285 | reading back the price text that `formatMoney` wrote for some cents gives that many cents: the round trip from parser to item price to `Number` |
| Money.PlainLiteral | app.js:419-421 | `Number(t) \|\| 0` on an unsigned, trimmed literal is its value, or 0 when it is not a number |
| Money.NumericValue | app.js:419-421 | `Number(text) \|\| 0`: 0 for blank text and for text that is not a decimal literal; `PlainLiteral`, `NumericValueOfCents` and `Wizard.EmptyIsZero` state its values |
| Bills.PersonIds | app.js:467 | `people.map(p => p.id)` lists the ids in people order |
| Bills.Without | app.js:378 | `filter(pid => pid !== id)` keeps exactly the other ids, never lengthens the list, and keeps it free of repeats |
| Bills.PeopleWithout | app.js:376 | the remove-person filter keeps exactly the other people, and their ids are the id list without `id` |
| Bills.AssignmentsWithout | app.js:377-379 | the pruning loop keeps every key and takes `id` out of every list |
| Bills.FilterItems | app.js:316 | filtering rows keeps exactly the rows that pass the test, and keeps the ids distinct |
| Bills.ItemsWithout | app.js:316 | the remove-item filter keeps exactly the rows with another id |
| Bills.KeepRowsConsistent | app.js:353 | keeping some of the rows, with distinct ids, keeps the bill's integrity |
| Bills.RemovePersonConsistent | app.js:375-382 | removing a person from the list and from every assignment list keeps the integrity: no list names a missing person |
| Bills.NewRowsConsistent | app.js:276-285 | replacing the rows with rows whose ids are distinct and below the new counter keeps the integrity |
| Bills.AppendRowConsistent | app.js:338-342 | a row with the counter's id, added at the end, keeps the integrity once the counter moves on |
| Bills.InsertRowConsistent | app.js:309-314 | a row with the counter's id, inserted after row `k`, keeps the integrity once the counter moves on |
| Bills.EditRowConsistent | app.js:307-308 | changing a row's label or price, but not its id, keeps the integrity |
| Bills.RemoveRowConsistent | app.js:315-320 | removing a row and its assignment entry keeps the integrity |
| Bills.AddPersonConsistent | app.js:388-395 | a trimmed non-empty name with the counter's id keeps the integrity once the counter moves on |
| Bills.AssignConsistent | app.js:455-477 | an assignment list of distinct people who are all on the people list keeps the integrity |
| Receipt.IsTwoWords | app.js:227 | `/^a\s+b$/i`: `a` at the start, at least one white-space character, then `b` ending the line, ignoring case; `ReceiptFacts.TwoWordsSameFold` states the case rule |
| Receipt.IsFooterCode | app.js:228 | `/^Пг\.#\d+\s+СУМА/i`: the code at the start, at least one digit, at least one white-space character, then `СУМА`, with anything after it; `ReceiptFacts.FooterCodeSameFold` states the case rule |
| Receipt.IsItemCounter | app.js:228 | `/^\d+\s+артикул$/i`: at least one digit, at least one white-space character, then `артикул` ending the line; `ReceiptFacts.ItemCounterSameFold` states the case rule |
| Receipt.MatchesSkipPattern | app.js:226-229 | the eight `RECEIPT_SKIP_PATTERNS`, each tested on the trimmed line; `ReceiptFacts.SkipPatternCaseless` and `ReceiptFacts.NoSkipPattern` state what they let through |
| Receipt.IsReceiptSkipLine | app.js:230-233 | `isReceiptSkipLine` tests the trimmed line against the patterns; `ReceiptFacts.SkipLineIgnoresPadding` states that padding never changes the answer |
| Receipt.CurrencyLength | app.js:240 | the optional currency word takes the first alternative that fits and stays inside the line |
| Receipt.MatchAt | app.js:240 | a match of the price pattern at `p` is a well-formed match: digits and white space, a separator, two decimals, inside the line |
| Receipt.ExecFrom | app.js:240-243 | `regex.exec` from `lastIndex` returns the leftmost match that starts there or later, or none when no position matches |
| Receipt.MatchesFrom | app.js:242-243 | the repeated `exec` calls return matches of the pattern, inside the line, each starting after the previous one ended |
| Receipt.MatchesStep | app.js:242-243 | one more `exec` call moves one match from the matches still to come to the ones already seen |
| Receipt.LastPriceMatch | app.js:239-245 | the match `findLastPriceOnLine` returns is a match of the pattern inside the line |
| Receipt.FindLastPriceOnLine | app.js:239-245 | the `while (regex.exec(line))` loop ends with the last of the successive matches, or none |
| Receipt.QtyPrefixMatch | app.js:257 | a match of the quantity prefix takes a non-empty part of the label's start |
| Receipt.PriceCents | app.js:247-252 | the price of a match in cents: its integer part without white space gives the whole units, its two decimals the cents |
| Receipt.PriceText | app.js:248-251 | the text handed to `parseFloat`: the integer part without white space, `.`, the two decimals; `ReceiptFacts.PriceTextValue` states its value |
| Receipt.ParseLine | app.js:259-274 | a line gives a row only with quantity at least 1, a price above 0 and at most 999999.99, and a label that is the sentinel or has two UTF-16 units or more |
| Receipt.PricedRow | app.js:263-273 | a line's last price gives a row exactly when it is above 0 and at most `MAX_PRICE` |
| Receipt.LabelOf | app.js:265-272 | the label before the price gets quantity at least 1, and is either the sentinel or two UTF-16 units long or more |
| Receipt.Readable | app.js:272 | a label shorter than two UTF-16 units becomes `LABEL_UNREADABLE`; a longer one is kept as it is |
| Receipt.TrimmedNonBlank | app.js:255 | every line read is trimmed and not blank |
| Receipt.TrimmedNonBlankSameTrims | app.js:255 | pieces that trim alike keep the same lines |
| Receipt.CrLfLines | app.js:255 | splitting on line feeds alone keeps the same lines as `split(/\r?\n/)` once the pieces are trimmed and blank ones dropped |
| Receipt.ReceiptLines | app.js:255 | the lines read are those of `split(/\r?\n/)`, trimmed, without blank ones: each is non-empty and trimmed |
| Receipt.LineRows | app.js:259-274 | one line gives at most one row |
| Receipt.ParseRows | app.js:259-274 | the loop over lines pushes, in line order, the row of each line that gives one |
| Receipt.ParseLines | app.js:259-274 | the rows of the loop over the lines, in line order; `ParseRows` computes them with the loop, and `ReceiptFacts.ParseLinesAppend` and `ReceiptFacts.ParseLinesGood` state their properties |
| Receipt.ParsedItems | app.js:276-282 | `parsed.map` makes one item per row, in order, with consecutive ids from the counter and the price written by `formatMoney` |
| Receipt.ItemOf | app.js:277-282 | a row becomes an item with the given id, its label, its cents written by `formatMoney`, and quantity at least 1 (`qty \|\| 1`) |
| Receipt.ReceiptItems | app.js:276-285 | the new rows are never empty and have consecutive ids from the counter; they are the single blank row exactly when no line gave a row |
| ReceiptFacts.LastOfMatches | app.js:242-244 | the `exec` loop finds nothing exactly when `exec` from the start fails, and no match starts after the last one it finds |
| ReceiptFacts.LastPriceMatchIsLast | app.js:239-245 | the rightmost price wins: nothing is found exactly when the pattern matches nowhere, and otherwise no match starts after the returned one ends |
| ReceiptFacts.MatchText | app.js:240 | a match's groups are the text it spans: the integer part, a `.` or `,`, then the two decimals |
| ReceiptFacts.RowOfLine | app.js:259-274 | a kept line whose last price is in range gives the row made of that price and the label and quantity read from the text before it |
| ReceiptFacts.PrefixedLabel | app.js:267-271 | a quantity prefix of more than 1 is taken off the label and becomes the quantity |
| ReceiptFacts.PlainLabel | app.js:265-272 | a trimmed label of two or more characters that does not start with a digit is kept whole, with quantity 1 |
| ReceiptFacts.NoSkipPattern | app.js:226-233 | a trimmed line that none of the eight patterns matches is not a skip line |
| ReceiptFacts.SkipLineIgnoresPadding | app.js:230-233 | a line and its trim are skipped alike |
| ReceiptFacts.TwoWordsSameFold | app.js:227 | `/^a\s+b$/i` matches both or neither of two lines that differ only in letter case |
| ReceiptFacts.FooterCodeSameFold | app.js:228 | `/^Пг\.#\d+\s+СУМА/i` matches both or neither of two lines that differ only in letter case |
| ReceiptFacts.ItemCounterSameFold | app.js:228 | `/^\d+\s+артикул$/i` matches both or neither of two lines that differ only in letter case |
| ReceiptFacts.SkipPatternCaseless | app.js:226-233 | the skip patterns carry the `i` flag: two lines that differ only in letter case are skipped alike |
| ReceiptFacts.LatinLineMatchesNoPattern | app.js:226-229 | a line that starts with a Latin letter other than T and holds no `#` matches none of the skip patterns |
| ReceiptFacts.NoMatchAt | app.js:240 | no price match starts at a character that is neither a digit nor white space |
| ReceiptFacts.NoSeparatorAfter | app.js:240 | no price match starts where the run of digits and white space is followed by something other than `.` or `,` |
| ReceiptFacts.ExecReaches | app.js:242 | `exec` passes over the positions where nothing matches and returns the first match |
| ReceiptFacts.ExecNone | app.js:242 | `exec` returns `null` when no match starts at or after `lastIndex` |
| ReceiptFacts.PriceTextValue | app.js:247-252 | `parseFloat` of the text `parsePriceFromMatch` builds is the match's value in cents divided by 100 |
| ReceiptFacts.ParseLinesAppend | app.js:259-274 | the loop handles each line on its own: the rows of two runs of lines are the rows of each, in order |
| ReceiptFacts.ParseLinesGood | app.js:264 | every row pushed passed the price guard and has a readable label and a quantity of at least 1 |
| ReceiptFacts.TrimmedNonBlankSound | app.js:255 | every line read is one of the trimmed pieces of the text |
| ReceiptFacts.TrimmedNonBlankComplete | app.js:255 | every piece that is not blank once trimmed is read |
| ReceiptFacts.TrimmedNonBlankKeeps | app.js:255 | lines that are already trimmed and not blank are all read, unchanged |
| ReceiptFacts.ReceiptLinesOf | app.js:255 | the lines of a text that are read are exactly its non-blank pieces, trimmed |
| ReceiptFacts.LineDropped | app.js:260-264 | a line gives no row exactly when it is a skip line, has no price, or its price is 0 or above the limit |
| ReceiptFacts.ReceiptItemsShape | app.js:276-285 | parsing gives at least one item: one item per row, with the row's label and quantity and a price text worth the row's cents, or else one blank row |
| ReceiptFacts.ReceiptItemIds | app.js:276-285 | the ids parsing hands out are distinct and run from the old counter up to the new one |
| ReceiptExamples.GreedyIntegerPart | app.js:240 | `[\d\s]+` is greedy across white space: "Coffee 3 2,50" costs 32.50 |
| ReceiptExamples.QuantityPrefix | app.js:257-271 | "3x Coffee 2,50" is three coffees at 2.50 |
| ReceiptExamples.QuantityAfterName | app.js:257-271 | "Cola 3x 1,20" keeps the label "Cola 3x" and has quantity 1 |
| ReceiptExamples.TotalLineSkipped | app.js:226-233 | the bare total line "ОБЩА СУМА" is a skip line and gives no row |
| ReceiptExamples.TotalWithAmountKept | app.js:226-233 | the anchored pattern lets "ОБЩА СУМА 16,10" through, as a row costing 16.10 |
| ReceiptExamples.ThousandsSeparator | app.js:247-252 | white space in the integer part is dropped: "1 234,56" is 1234.56, and with nothing before it the label is the sentinel |
| ReceiptExamples.RightmostPrice | app.js:239-245 | the last price on a line wins: "Milk 1,20 2,40" costs 2.40 and keeps "Milk 1,20" as its label |
| ReceiptExamples.DigitLineKept | app.js:226-233 | a trimmed line that starts with a digit, has no `#` and is not an item counter is not skipped |
| ReceiptExamples.LatinLineKept | app.js:226-233 | a trimmed line that starts with a Latin letter other than T and has no `#` is not skipped |
| ReceiptExamples.OnlyMatch | app.js:239-245 | a match that ends the line, with nothing matching before it, is the one `findLastPriceOnLine` returns |
| ReceiptExamples.ParsedAs | app.js:259-274 | a kept line, its last price and its label give exactly the expected row |
| Split.ItemTotal | app.js:419-421 | `getItemTotal`: the price's `Number(...) \|\| 0` times the quantity; `Scenario.ItemsOfThree` evaluates it |
| Split.TotalSum | app.js:84-86 | `getTotalSum`: the item totals added up; `TotalSumAppend`, `TotalSumMoveLast` and `AllAssignedTotal` state its properties |
| Split.TotalSumAppend | app.js:84-86 | the total of two runs of items is the sum of their totals |
| Split.TotalSumMoveLast | app.js:84-86 | the total does not depend on where an item sits in the list |
| Split.Assignees | app.js:505 | `state.assignments[item.id] \|\| []`: the item's list, or none when it has no entry; `OwedSkipsUnassigned` and `ShareUnassigned` state what an empty or missing list means |
| Split.Slice | app.js:506-508 | what one list gives a person: `total / personIds.length` once per place they have on it, and nothing for an empty list; `SlicesSumToTotal` states that the slices add up to the total |
| Split.Count | app.js:507 | an id is counted at most as many times as the list is long |
| Split.CountZero | app.js:507 | an id is counted no times exactly when it is not on the list |
| Split.TimesIsProduct | app.js:507 | adding `perPerson` once per place is multiplying it by the number of places |
| Split.ComputeOwes | app.js:500-509 | the owes loop gives everybody an entry, and the entry of every id is the sum, over the items, of that person's share |
| Split.AddShares | app.js:507 | `personIds.forEach` adds `perPerson` to each id once for each place it has on the list, and keeps every earlier entry |
| Split.OwedAt | app.js:502-508 | the items are handled in order: one more item adds its share |
| Split.Share | app.js:503-507 | what one item adds to a person: the item total divided by the length of its list, once per place the person has on it; `ShareUnassigned` and `SlicesSumToTotal` state its properties |
| Split.Owed | app.js:500-509 | what a person owes: the shares of the items, added up in item order; `ComputeOwes` computes it with the loops, and `OwedAddsUp` and `OwedUnassigned` state its properties |
| Split.OwedUnassigned | app.js:504-505 | a person who is on no item's list owes nothing |
| Split.ShareUnassigned | app.js:504-505 | an item whose list does not name a person adds nothing to what that person owes |
| Split.OwedSkipsUnassigned | app.js:505 | an item nobody is assigned to adds nothing to anybody |
| Split.SlicesSumToTotal | app.js:506-507 | the equal shares of an item's total among its distinct assignees add up to the total, with no remainder lost or made up |
| Split.OwedAddsUp | app.js:500-509 | what the people owe, added up, is the total of the items somebody is assigned to, when the lists name people who exist, without repeats |
| Split.AllAssignedTotal | app.js:84-86 | when every item is assigned to somebody, that total is the bill's total |
| Split.Insert | app.js:517 | putting one more person into a ranking keeps it ranked and adds exactly that person |
| Split.RankOrder | app.js:517 | the stable sort lists every person once: the largest amount comes first, and equal amounts keep their list order |
| Split.Amounts | app.js:517 | the sort key of each person is `owes[id] \|\| 0` |
| Split.AmountText | app.js:520-525 | an amount of exactly 0 reads "Не дължи", any other amount `formatMoney(x) + ' €'` |
| Split.AmountTextOneLine | app.js:553 | no amount text holds a line break |
| Split.OwedList | app.js:500-509 | each person's amount is what `Owed` says they owe |
| Split.Summary | app.js:499-529 | the summary shows the bill's total and one card per person, in ranked order, with the name, the amount and its text; the amounts never go up from one card to the next |
| Split.CardsInOrder | app.js:518-528 | `sorted.forEach` makes one card per ranked index, in that order |
| Split.SummaryLines | app.js:553 | one line per person, in list order: `name: amount` |
| Split.CopyLines | app.js:543-554 | the copied lines show, in list order, each person's name and the text of what they owe |
| Split.CopyText | app.js:553-554 | the copied text is those lines joined with line breaks |
| Split.CopyTextLines | app.js:553-554 | when no name holds a line break, the copied text splits back into exactly one line per person |
| Wizard.StepId | app.js:16 | the element id of each step, as listed in `steps`; `StepIdRoundTrip` and `StepFromId` state that the ids are distinct and found again |
| Wizard.StepIndex | app.js:16 | every step has a place in `steps` |
| Wizard.StepFromId | app.js:44 | `steps.includes(id)` finds the step with that id, and fails only for an id that no step has |
| Wizard.StepIdRoundTrip | app.js:16 | every step is found again from its id, so the ids are distinct |
| Wizard.ActiveFlags | app.js:54-82 | after `showStep(s)`, each step is marked exactly when it is `s` |
| Wizard.FirstActive | app.js:19 | `saveState`'s `steps.find` returns the first marked step, or Upload when none is marked |
| Wizard.ShownStep | app.js:19 | after `showStep(s)` exactly one step is marked, and `saveState` records `s` |
| Wizard.Priced | app.js:345 | `Number(i.price) > 0`, the test of the gate's filter; `PricedHasText` and `EmptyIsZero` state its properties |
| Wizard.HasPricedRow | app.js:345-346 | the gate: some row's price is a number above 0; `Store.Bill.ToPeople` and `Wizard.PruneKeepsPriced` state what it guarantees |
| Wizard.KeepRow | app.js:353 | the filter keeps a row with a non-blank label, or with a price text that is a number above 0; `PruneRows` states what it keeps |
| Wizard.PruneRows | app.js:353 | the filter keeps exactly the rows with a non-blank label or a positive price, and keeps their ids distinct |
| Wizard.PruneKeepsPriced | app.js:345-354 | once the gate lets the user on, every priced row survives pruning, so the list is never empty and the reinsertion at line 354 never runs |
| Wizard.PruneConsistent | app.js:353 | pruning rows keeps the bill's integrity |
| Wizard.PricedHasText | app.js:353 | a row with a positive price has non-empty price text |
| Wizard.EmptyIsZero | app.js:345 | an empty price field is worth 0, so it does not pass the gate |
| Snapshot.Save | app.js:18-30 | the object `saveState` writes: the step's id, the items, the people, the assignments and both counters; `RestoreSave` states that loading it gives the bill back |
| Snapshot.Restore | app.js:32-52 | each field that passed its test replaces the state's, the others keep theirs, and the step is the stored one when known; `RestoreDefaults` and `RestoreSave` state its properties |
| Snapshot.SaveItems | app.js:23 | every item is saved with its id, label, price and quantity |
| Snapshot.RestoreItem | app.js:38 | a stored item comes back with its fields, and a missing or `null` quantity becomes 1 |
| Snapshot.RestoreItems | app.js:38 | stored items come back one by one, in order |
| Snapshot.RestoredStep | app.js:44 | the stored step is shown when it is one of `steps`, otherwise Upload |
| Snapshot.RestoreSave | app.js:18-52 | loading what was saved gives the saved bill back, whatever the state was before |
| Snapshot.RestoreDefaults | app.js:37-44 | a record with no usable field leaves every field as it was and shows Upload |
| Store.Bill.constructor | app.js:6-14 | the initial state: no photo, rows, people or assignments, both counters at 1; it has integrity |
| Store.Bill.CurrentStep | app.js:19 | the step `saveState` records: the first step marked active, or Upload when none is; `Wizard.FirstActive` and `Wizard.ShownStep` state its properties |
| Store.Bill.ShowStep | app.js:54-82 | `showStep(s)` marks exactly `s`, which `saveState` then records as the current step |
| Store.Bill.SaveState | app.js:18-30 | the snapshot of the current step, the lists and the counters is stored; nothing changes when storage throws |
| Store.Bill.LoadState | app.js:32-52 | with nothing stored, or a broken record, the state is untouched and the result is `undefined` or `false`; otherwise each usable field replaces its own, the stored step (or Upload) is shown, and the result is `true` |
| Store.Bill.Start | app.js:596-599 | at start-up, a stored bill is restored and exactly its recorded step (or Upload) is marked; otherwise the state is kept and Upload is shown |
| Store.Bill.SaveThenLoad | app.js:18-52 | saving and then loading, on working storage, gives back the saved part of the bill (step, rows, people, assignments and counters); the snapshot stays stored and the recorded step becomes the only marked one |
| Store.Bill.LoadImage | app.js:114-130 | a loaded photo is kept and the state saved |
| Store.Bill.ChangePhoto | app.js:132-144 | the photo is dropped and the state saved |
| Store.Bill.ParseReceiptText | app.js:254-286 | the rows become the parsed receipt, the counter moves past the new ids, and integrity is kept |
| Store.Bill.Scan | app.js:188-217 | without a photo, or with an empty one, nothing happens; otherwise the recognised text (empty when recognition fails) is parsed, the items step shown, the state saved, and integrity kept |
| Store.Bill.SkipScan | app.js:219-224 | skipping the scan leaves no rows, shows the items step and saves |
| Store.Bill.EditLabel | app.js:307 | typing changes only that row's label, and integrity is kept |
| Store.Bill.EditPrice | app.js:308 | typing changes only that row's price text, kept as typed |
| Store.Bill.DuplicateItem | app.js:309-314 | a copy with a fresh id, the same label and price, and quantity 1 goes right after the row |
| Store.Bill.RemoveItem | app.js:315-320 | the row with that id and its assignment entry go, and integrity is kept |
| Store.Bill.AddItem | app.js:338-342 | a blank row with a fresh id goes at the end |
| Store.Bill.ToPeople | app.js:344-359 | without a priced row nothing changes; otherwise the blank rows are dropped, at least one row is left, the people step is shown and the state saved |
| Store.Bill.DropBlankRows | app.js:353 | the rows are pruned, at least one priced row survives, and integrity is kept |
| Store.Bill.AddPerson | app.js:388-395 | a name that trims to nothing is refused with nothing changed; otherwise the trimmed name joins with a fresh id and integrity is kept |
| Store.Bill.RemovePerson | app.js:375-382 | the person leaves the list and every assignment list, and integrity is kept |
| Store.Bill.PruneAssignments | app.js:377-379 | the loop over the keys takes the id out of every list and keeps every key |
| Store.Bill.BackToItems | app.js:400 | the items step is shown and the state saved |
| Store.Bill.ToAssign | app.js:401-412 | refused with nothing changed while there is nobody; otherwise the assign step is shown and saved |
| Store.Bill.Toggle | app.js:455-461 | checking appends the person to the item's list and unchecking filters them out; integrity is kept when the person exists and was not already on the list |
| Store.Bill.AssignAll | app.js:466-471 | the item's list becomes everybody, in list order, and integrity is kept |
| Store.Bill.AssignNone | app.js:472-477 | the item's list becomes empty |
| Store.Bill.BackToPeople | app.js:483 | the people step is shown and the state saved |
| Store.Bill.ToSummary | app.js:484-488 | the summary step is shown with the ranked summary of the current bill |
| Store.Bill.CopySummary | app.js:542-561 | the clipboard text is one `name: amount` line per person |
| Store.Bill.BackToAssign | app.js:563 | the assign step is shown and the state saved |
| Store.Bill.NewBill | app.js:564-579 | the state returns to its initial values with integrity, the snapshot is removed unless removal throws, and Upload is shown |
| Store.Bill.SelectStep | app.js:582-594 | a dot naming a known step shows it; any other click changes nothing |
| Scenario.PizzaLine | app.js:259-274 | "Pizza 12,50" is one pizza at 12.50 |
| Scenario.ThreeLines | app.js:255 | three trimmed, non-blank lines joined with line breaks are read back as they were |
| Scenario.ReceiptOfThree | app.js:254-274 | three readable lines that each give a row give those rows, in order |
| Scenario.ItemsOfThree | app.js:276-285 | three rows of quantity 1 become three items with consecutive ids whose totals are their prices |
| Scenario.ShareAlone | app.js:506-507 | an item assigned to one person alone is all theirs |
| Scenario.SharePair | app.js:506-507 | an item assigned to two people is half theirs each |
| Scenario.ThreeItems | app.js:84-86 | items costing 12.50, 1.20 and 16.10 total 29.80; with the pizza on person 1 and the cola on persons 1 and 2, person 1 owes 13.10 and person 2 owes 0.60 |
| Scenario.EndToEnd | app.js:254-286 | "Pizza 12,50", "Cola 3x 1,20", "ОБЩА СУМА 16,10" give three items totalling 29.80, and the split above |

## Left out

- Rendering is left out. This covers the DOM, the views' HTML, focus and scrolling, `updateTotal`, the toast, and the stepper classes `done`/`current`. The model keeps only what the handlers change in `state` and the `active` markers.
- Text recognition is left out: Tesseract, `FileReader`, drag and drop, `enhanceCanvasForOcr` and `normalizeImageForOcr`. The recognised text is a parameter of `Store.Bill.Scan`, and `None` stands for a failed recognition.
- `localStorage`, `JSON.stringify`/`JSON.parse` and the clipboard are left out. Storage is the `Stored` value, with a flag for a write or removal that throws. `Stored` is nothing, a broken record, or a record whose top-level fields are present only when they have the right shape.
- Money.FormatMoney: amounts are exact `real` numbers, not IEEE doubles. `toFixed(2)` rounds the exact value half up. It does not round the binary double. From 1e21 upward `toFixed` writes exponent notation; the model always writes the digits in full.
- Split.ComputeOwes: for the same reason, shares are exact quotients. The float error the source's additions can accumulate is left out.
- Money.NumericValue: `Number(text)` is modelled for decimal literals with an optional sign and exponent. Hexadecimal, binary and octal literals and `Infinity` read as 0 here. A literal beyond the double range, such as `1e400`, is `Infinity` in the source but its exact value here.
- Receipt.QtyPrefixMatch: `parseInt` of the digit group is exact. A count too large for a double is not rounded.
- Store.Bill.AddItem: the counters are unbounded integers, not doubles.
- Assignment keys are `int`, where the source's JSON object has string keys. A restored snapshot's keys are taken to be the item ids as numbers.
- `renderAssign` hides items whose total is 0 or less (`app.js:427`). This only affects the view: those items still take part in the split.
- Store.Bill.LoadState: a loaded snapshot is taken as it is. It may break the integrity that the handlers keep, so `Start` and `LoadState` do not promise `Integrity()`.
- Snapshot.Record: the stored elements are taken to be well typed and the counters whole numbers. `loadState` (app.js:36-42) checks only the top-level shapes: an array, a non-null object, a number. A `null` item makes the `qty` read throw, so `loadState` returns `false` with nothing changed; the model represents that snapshot as `Corrupt`. Items or people with missing or wrongly typed fields, string ids, and counters such as 1.5 or `NaN` pass those checks in the source but cannot be represented here.
- Store.Bill.Scan: recognition is asynchronous in the source, and only the scan button is disabled while it runs. A late result can replace the rows after the user skipped the scan, started a new bill or moved through the stepper, and it can save a snapshot again after a new bill removed it. The model runs the scan as one atomic step.
- Strings.Upper: the case-insensitive patterns fold case for ASCII letters, the whole Cyrillic block U+0400–U+04FF, and the letters outside it that fold with one of its letters (U+1C80–U+1C88 and U+A64B). Other scripts, the rest of Cyrillic Extended-B and the Latin-1 letters among them, are not folded.
