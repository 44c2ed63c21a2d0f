# Contacts from an Instagram/Facebook HTML export — a Dafny model

The application reads the `synced_contacts.html` file an Instagram or
Facebook data export contains. It extracts a list of contacts (name,
phone, e-mail, address) from it, lets the user merge contacts that share
a phone number, and exports the result as CSV or as vCard 3.0. This
project models the three utility modules that do that work and proves
properties of the model:

- `src/utils/contactParser.js`: the five extraction strategies and how
  their results are combined, de-duplicated and filtered;
- `src/utils/duplicateHandler.js`: grouping by trimmed phone, the merge
  filter, and the initial merge selections;
- `src/utils/contactConverter.js`: the CSV and vCard exports.

## Layout

| file | module | what it holds |
|---|---|---|
| `wrappers.dfy` | `Wrappers` | `Option` |
| `contacts.dfy` | `Contacts` | the `Contact` record (`name`, `phone`, `email`, `address`) |
| `strings.dfy` | `Strings` | the JavaScript string operations used: `trim`, `includes`/`indexOf`, `split` on one character, `join`, ASCII `toLowerCase` |
| `sequences.dfy` | `Sequences` | `filter`, subsequences, `reverse` |
| `vcard_scan.dfy` | `VCardScan` | `matchAll` with `/BEGIN:VCARD([\s\S]*?)END:VCARD/g` |
| `contact_parser.dfy` | `ContactParser` | the parsed document, the primary label-driven table strategy, and `parseVCard` |
| `fallback_strategies.dfy` | `FallbackStrategies` | the plain-table, contact-tagged-element and free-text strategies |
| `contact_pipeline.dfy` | `ContactPipeline` | `parseContactsFromHTML`: choosing the strategy results, de-duplication, and dropping unnamed contacts |
| `duplicate_handler.dfy` | `DuplicateHandler` | `findDuplicates`, `mergeContacts`, `initializeMergeSelections` |
| `contact_converter.dfy` | `ContactConverter` | `convertToCSV` and a CSV reader as its inverse, and `convertToVCard` |

### How the source maps to the model

- **The parsed document.** The source parses the markup with the
  browser's `DOMParser`. The model takes what the strategies read from
  the result as the `Document` value:
  - the markup text;
  - the tables, where each row is its first `td` (with the text of its
    nested `div div`) and the text of its `td`/`th` cells;
  - the elements tagged as contacts (`[class*="contact"], [data-contact], .vcard`),
    each with the text of its first name, phone, e-mail and address
    descendant;
  - `body.innerText`.
- **Loops are methods.** Each `forEach` loop that builds a result
  step by step is a method with a `for` loop:
  - `ParseInstagramFormat`, `ParseTableContacts` and
    `ParseTextContacts`;
  - `ParseDivContacts`;
  - `ParseVCard` and `ParseVCardFromHTML`;
  - `FindDuplicates` (through `IndexPhones` and `Record`);
  - `InitializeMergeSelections`.

  Each method is proved equal to a specification function that folds a
  step function over the input. The properties are then proved about
  that function.
- **Expressions are functions.** Code built only from `filter`, `map` and
  `join` expressions is a function:
  - `mergeContacts` is `MergeContacts`;
  - `convertToCSV` is `ConvertToCSV`;
  - `convertToVCard` is `ConvertToVCard`.
- **Object key order.** `Object.entries(phoneMap)` lists the keys in
  JavaScript's own-key order: array-index keys (such as `"12345"`) come
  first in ascending numeric order, then the other keys in insertion
  order. `AddOwnKey` models this, so `DuplicateGroups` lists the groups in
  the order the source does.
- **An independent CSV reader.** The CSV export uses the quoting of
  section 2 of RFC 4180: every field is quoted and a quote inside a field
  is doubled. It departs from that section in two ways: lines end with LF
  instead of CRLF, and a byte order mark (U+FEFF) comes before the
  header. `ReadCsv` reads exactly this format and nothing more: the byte
  order mark, the exact header, LF-separated records and quoted fields.
  It is not part of the source. It serves as the inverse against which
  the CSV export is proved lossless.
- **vCard lines.** The vCard export has the FN, N, TEL, EMAIL and ADR
  properties of RFC 2426, but ends its lines with LF instead of CRLF.

## Model

| member | source | states |
|---|---|---|
| `Strings.Trim` | src/utils/duplicateHandler.js:19 | `trim()` yields the empty string exactly when the input is all white space, and never leaves white space at either end |
| `Strings.TrimIsInfix` | src/utils/contactParser.js:23 | the trimmed value is the part of the text between the leading and the trailing white space |
| `Strings.TrimIdempotent` | src/utils/contactParser.js:133 | trimming an already trimmed line changes nothing |
| `Strings.IndexOfFirst` | src/utils/contactParser.js:25-35 | `indexOf` returns the first occurrence at or after the start, and reports none only when there is none |
| `Strings.ContainsOccurs` | src/utils/contactParser.js:25-35 | `includes` holds exactly when the label occurs somewhere in the cell text |
| `Strings.JoinSplit` | src/utils/contactParser.js:199 | joining the pieces of `split('\n')` with the separator gives back the text, so no character is lost |
| `Strings.SplitJoin` | src/utils/contactConverter.js:53 | splitting a join at the separator gives back the parts when no part contains the separator |
| `Strings.SplitPiecesFree` | src/utils/contactParser.js:202 | no piece of `split(':')` contains the separator |
| `Strings.ToLowerSpec` | src/utils/contactParser.js:184 | `toLowerCase` leaves no ASCII capital letter, changes no other character, and a second pass changes nothing |
| `Sequences.FilterMembers` | src/utils/contactParser.js:188 | an element survives `filter` exactly when it was there and passes the test |
| `Sequences.FilterSubsequence` | src/utils/contactParser.js:181-188 | `filter` keeps the surviving elements in their order |
| `Sequences.FilterIdempotent` | src/utils/duplicateHandler.js:49 | filtering a filtered list again with the same test changes nothing |
| `VCardScan.NextBlockSpec` | src/utils/contactParser.js:65-66 | one match starts at the first `BEGIN:VCARD` at or after the search position that has an `END:VCARD` after it, and ends at the first `END:VCARD` after that; no match means no such block exists |
| `VCardScan.VCardSpansOrdered` | src/utils/contactParser.js:65-69 | the matches come in text order and do not overlap |
| `VCardScan.VCardSpansExhaustive` | src/utils/contactParser.js:65-69 | after the last match, no further `BEGIN:VCARD … END:VCARD` block exists |
| `VCardScan.VCardSpanIsBlock` | src/utils/contactParser.js:65 | every match begins with `BEGIN:VCARD`, ends with `END:VCARD`, and holds no `END:VCARD` in between |
| `VCardScan.VCardBlockShape` | src/utils/contactParser.js:69-70 | every text passed to `parseVCard` has that shape |
| `ContactParser.Classify` | src/utils/contactParser.js:25-35 | the label a first cell names, by the first label it contains in the order of the `if` chain; `FillField` is proved to fill that field |
| `ContactParser.FillField` | src/utils/contactParser.js:25-35 | a row fills the field named by the first label its first cell contains: first name, then last name, then "Contact Information" or "Phone", then e-mail, then address; a cell with no label changes nothing |
| `ContactParser.VisitLabelRow` | src/utils/contactParser.js:19-56 | one row callback: it is skipped without a `td`; it emits the accumulated contact and resets the accumulator when a first name, last name or phone is known and the row is a "Contact Information", e-mail or address row, or the table's last row |
| `ContactParser.ParseInstagramFormat` | src/utils/contactParser.js:12-61 | the loop over all tables and rows computes the label fold, and the partial contact carries over from one table to the next |
| `ContactParser.LabelStep` | src/utils/contactParser.js:19-56 | the step of the label fold; `VisitLabelRow` is proved to compute it, and `LabelStepGood`, `PhoneRowDoesNotFlush`, `LastRowFlushes` and `LastRowWithoutTd` state what it does |
| `ContactParser.EmitShaped` | src/utils/contactParser.js:45-51 | a contact emitted from an accumulator holding a first name, last name or phone has a name or a phone, and all of its fields are trimmed |
| `ContactParser.AssignTidy` | src/utils/contactParser.js:23-34 | filling a field with a trimmed value keeps every field trimmed |
| `ContactParser.LabelStepGood` | src/utils/contactParser.js:19-56 | one row keeps the invariant: the accumulator is trimmed and every emitted contact is well shaped |
| `ContactParser.LabelRowsGood` | src/utils/contactParser.js:19-57 | the invariant holds over the rows of a table |
| `ContactParser.LabelTablesGood` | src/utils/contactParser.js:17-58 | the invariant holds over all tables |
| `ContactParser.InstagramContactsShaped` | src/utils/contactParser.js:38-51 | every contact of the primary strategy has a name or a phone, and all of its fields are trimmed |
| `ContactParser.PhoneRowDoesNotFlush` | src/utils/contactParser.js:29-30 | a "Phone" row that is not the table's last row only records the phone; it does not complete the contact |
| `ContactParser.LastRowFlushes` | src/utils/contactParser.js:43 | after a table whose last row has a `td`, no contact with a key is left pending |
| `ContactParser.LastRowWithoutTd` | src/utils/contactParser.js:20-21 | a last row without a `td` is ignored, so it does not complete the contact |
| `ContactParser.LabelTablesAppend` | src/utils/contactParser.js:15-17 | a further table continues from the accumulator the earlier tables left |
| `ContactParser.ParseVCard` | src/utils/contactParser.js:191-228 | the loop over the lines computes the record the line fold specifies |
| `ContactParser.VCardLastLineWins` | src/utils/contactParser.js:201-221 | a field holds the trimmed value of the last line that writes it, so a later `FN` or `N` line overrides an earlier one |
| `ContactParser.VCardFieldUnset` | src/utils/contactParser.js:192-197 | a field that no line writes stays empty |
| `ContactParser.VCardLine` | src/utils/contactParser.js:201-221 | what one line writes: nothing for an empty key or value or an unknown key type, otherwise the trimmed value into the field of the key type; `VCardLineOfParts` and `VCardSimpleLine` state it on the line's pieces |
| `ContactParser.VCardLineOfParts` | src/utils/contactParser.js:202-206 | a line is the `:`-pieces it splits into: it is skipped when its key or first value is empty; otherwise the key type up to the first `;` chooses the field |
| `ContactParser.VCardSimpleLine` | src/utils/contactParser.js:202-221 | a line `KEY:value` writes the trimmed value into the field for `KEY` (`FN` and `N` both write the name) and writes nothing for an unknown key |
| `ContactParser.ParseVCardFromHTML` | src/utils/contactParser.js:64-74 | one parsed card per match, in text order |
| `FallbackStrategies.CellText` | src/utils/contactParser.js:87-90 | a cell value is the trimmed cell text, or empty when the row has no such cell |
| `FallbackStrategies.VisitTableRows` | src/utils/contactParser.js:82-97 | the rows of one table add their contacts in row order |
| `FallbackStrategies.ParseTableContacts` | src/utils/contactParser.js:77-101 | the loop over the tables collects the contacts of every row in document order |
| `FallbackStrategies.RowContactColumns` | src/utils/contactParser.js:84-95 | a row yields a contact exactly when it has at least two cells and its first cell is not blank; the contact is the first four cells, trimmed, with missing ones empty |
| `FallbackStrategies.RowsContactsMembers` | src/utils/contactParser.js:83-96 | the contacts of a table are exactly those some row yields |
| `FallbackStrategies.TableContactsMembers` | src/utils/contactParser.js:81-98 | the contacts of the strategy are exactly those some row of some table yields |
| `FallbackStrategies.TableContactsShaped` | src/utils/contactParser.js:86-95 | every contact of the table strategy has a name, and all of its fields are trimmed |
| `FallbackStrategies.MatchText` | src/utils/contactParser.js:110-113 | a field value is the trimmed text of the matched descendant, and empty exactly when nothing matched or the text is all white space |
| `FallbackStrategies.DivContactsAsWritten` | src/utils/contactParser.js:104-122 | as written: the strategy returns only when no element is tagged as a contact, and then returns nothing; otherwise the first `querySelector` throws |
| `FallbackStrategies.ParseDivContacts` | src/utils/contactParser.js:104-122 | with the field selectors as intended, the loop over the tagged elements computes the strategy's contacts |
| `FallbackStrategies.DivContactsMembers` | src/utils/contactParser.js:108-119 | the strategy yields exactly the contacts of the tagged elements with a non-blank name; each has a name and all four fields trimmed |
| `FallbackStrategies.Kind` | src/utils/contactParser.js:136-148 | a line read as a name is non-empty and shorter than 100 characters |
| `FallbackStrategies.PhoneShaped` | src/utils/contactParser.js:136 | `/^\+?[\d\s\-()]+$/`: an optional `+` then one or more digits, white space, `-`, `(` or `)` |
| `FallbackStrategies.EmailShaped` | src/utils/contactParser.js:142 | `/^[^\s@]+@[^\s@]+\.[^\s@]+$/`: one `@` with something before it, no white space, and a `.` after the `@` with something on both sides |
| `FallbackStrategies.PhoneLineExample` | src/utils/contactParser.js:136 | `+1 (555) 010-9999` reads as a phone |
| `FallbackStrategies.EmailLineExample` | src/utils/contactParser.js:142 | `jon@example.com` reads as an e-mail |
| `FallbackStrategies.NameLineExample` | src/utils/contactParser.js:148 | `Jon Snow` reads as a name |
| `FallbackStrategies.ShortNumberIsName` | src/utils/contactParser.js:136-148 | `12345` is too short for a phone (the length test is `> 5`), so it reads as a name |
| `FallbackStrategies.TextStep` | src/utils/contactParser.js:132-159 | the step of the text fold; `VisitTextLine` is proved to compute it, and `TextContactOpen`, `TextLastPhoneWins` and `TextLastEmailWins` state what it does |
| `FallbackStrategies.VisitTextLine` | src/utils/contactParser.js:132-159 | one line callback: a phone line or an e-mail line fills the open contact, if there is one; a name line emits the open contact and opens a new one |
| `FallbackStrategies.ScanTextLines` | src/utils/contactParser.js:130-159 | the loop over the lines computes the text fold |
| `FallbackStrategies.ParseTextContacts` | src/utils/contactParser.js:125-166 | the strategy is the fold over the non-blank lines, plus the contact still open at the end |
| `FallbackStrategies.ClassifyLinesWell` | src/utils/contactParser.js:133-148 | every line is classified by its own trimmed text |
| `FallbackStrategies.TextFoldNames` | src/utils/contactParser.js:148-163 | the contacts so far, with the open one, are named after the name lines so far, one contact per name line |
| `FallbackStrategies.TextContactsNames` | src/utils/contactParser.js:125-166 | the text strategy emits exactly one contact per name line, in order, named by that line |
| `FallbackStrategies.TextFoldShaped` | src/utils/contactParser.js:135-158 | every contact has a name line as its name, a phone line or nothing as its phone, an e-mail line or nothing as its e-mail, and no address |
| `FallbackStrategies.TextContactsShaped` | src/utils/contactParser.js:125-166 | that shape holds for every contact of the text strategy |
| `FallbackStrategies.TextLeadingLinesDropped` | src/utils/contactParser.js:137-145 | phone and e-mail lines before the first name line are dropped |
| `FallbackStrategies.TextContactOpen` | src/utils/contactParser.js:148-158 | after a name line and no later one, the open contact carries that name, and nothing more has been emitted |
| `FallbackStrategies.TextLastPhoneWins` | src/utils/contactParser.js:136-139 | a contact's phone is the last phone line after its name line |
| `FallbackStrategies.TextLastEmailWins` | src/utils/contactParser.js:142-145 | a contact's e-mail is the last e-mail line after its name line |
| `ContactPipeline.Candidates` | src/utils/contactParser.js:176-178 | the primary strategy's result when it is non-empty, otherwise the other four in order; `ContactsFromHTMLSources` states where returned contacts come from |
| `ContactPipeline.KeepFirst` | src/utils/contactParser.js:181-186 | the `filter` keeping a contact when `findIndex` of its key is its own index; `KeepFirstIsFirst`, `KeepFirstDistinct`, `KeepFirstComplete` and `KeepFirstSubsequence` state what it keeps |
| `ContactPipeline.Unique` | src/utils/contactParser.js:181-186 | the de-duplication over the whole list |
| `ContactPipeline.FinalContacts` | src/utils/contactParser.js:181-188 | de-duplication then dropping unnamed contacts; `FinalNamed`, `FinalDistinct`, `FinalSubsequence` and `FinalFirstPerKey` state the result |
| `ContactPipeline.ContactsFromHTML` | src/utils/contactParser.js:168-188 | the whole parse, with the contact-tagged elements read as intended; `ParseContactsFromHTML` computes it |
| `ContactPipeline.ContactsFromHTMLAsWritten` | src/utils/contactParser.js:168-188 | the whole parse as written: no result (an exception) when any element is tagged as a contact |
| `ContactPipeline.DivSelectorThrows` | src/utils/contactParser.js:104-113 | as written, one tagged element aborts the parse even when the primary strategy found contacts, which the intended reading returns |
| `ContactPipeline.AsWrittenWithoutElements` | src/utils/contactParser.js:104-122 | without tagged elements, the parse as written returns the same contacts as the intended one |
| `ContactPipeline.FindIndexFirst` | src/utils/contactParser.js:183-185 | `findIndex` returns the first index whose contact has the same lower-case name and phone, and -1 only when there is none |
| `ContactPipeline.ParseContactsFromHTML` | src/utils/contactParser.js:168-188 | the result is the final list of the chosen candidates; every contact in it has a name, and no two share a lower-case name and a phone |
| `ContactPipeline.KeepFirstIsFirst` | src/utils/contactParser.js:181-186 | every contact the de-duplication keeps is the first candidate with its key |
| `ContactPipeline.KeepFirstDistinct` | src/utils/contactParser.js:181-186 | no two kept contacts share a key |
| `ContactPipeline.KeepFirstComplete` | src/utils/contactParser.js:181-186 | the first candidate with each key is kept |
| `ContactPipeline.KeepFirstSubsequence` | src/utils/contactParser.js:181-186 | the kept contacts keep their order |
| `ContactPipeline.FilterDistinct` | src/utils/contactParser.js:188 | dropping the unnamed contacts keeps the keys distinct |
| `ContactPipeline.SameKeySameNamedness` | src/utils/contactParser.js:184-188 | two contacts with the same key are either both named or both unnamed |
| `ContactPipeline.FinalNamed` | src/utils/contactParser.js:188 | every returned contact has a name |
| `ContactPipeline.FinalDistinct` | src/utils/contactParser.js:180-188 | no two returned contacts share a lower-case name and a phone |
| `ContactPipeline.FinalSubsequence` | src/utils/contactParser.js:176-188 | the returned contacts are candidates, in candidate order |
| `ContactPipeline.FinalFirstPerKey` | src/utils/contactParser.js:180-188 | every returned contact is the first candidate with its key; for every named candidate, the first candidate with its key is returned |
| `ContactPipeline.ContactsFromHTMLSources` | src/utils/contactParser.js:175-178 | when the primary strategy finds anything, only its contacts are returned; otherwise every returned contact comes from one of the other four strategies |
| `DuplicateHandler.InsertIndexKeyMembers` | src/utils/duplicateHandler.js:29 | placing an array-index key adds exactly that key and keeps the keys distinct |
| `DuplicateHandler.AddOwnKeyMembers` | src/utils/duplicateHandler.js:21-22 | creating a property adds exactly its key to the own keys and keeps them distinct |
| `DuplicateHandler.Phones` | src/utils/duplicateHandler.js:19 | each contact's phone, trimmed, at the contact's index; no recorded phone has white space at either end |
| `DuplicateHandler.RecordPhone` | src/utils/duplicateHandler.js:19-25 | the step of the phone index; `Record` is proved to compute it, and `PhoneIndexEntry` and `PhoneIndexKeys` state what the index holds |
| `DuplicateHandler.Record` | src/utils/duplicateHandler.js:19-25 | one callback: an empty phone changes nothing; a new phone gets the list holding the index and becomes a key; a known phone gets the index appended |
| `DuplicateHandler.IndexPhones` | src/utils/duplicateHandler.js:15-26 | the loop builds the phone map and its key order that the index fold specifies |
| `DuplicateHandler.FindDuplicates` | src/utils/duplicateHandler.js:14-37 | the result is the list of duplicate groups built from the phone map |
| `DuplicateHandler.PhoneIndexEntry` | src/utils/duplicateHandler.js:18-26 | a phone is a key of the map exactly when it is non-empty and some contact has it; its entry is the indices of those contacts |
| `DuplicateHandler.PhoneIndexKeys` | src/utils/duplicateHandler.js:18-29 | the own-key list holds each key of the map exactly once |
| `DuplicateHandler.IndicesWithBound` | src/utils/duplicateHandler.js:24 | every recorded index is in range, and its contact has that phone |
| `DuplicateHandler.IndicesWithIncreasing` | src/utils/duplicateHandler.js:18-24 | the indices under a phone are strictly increasing |
| `DuplicateHandler.IndicesWithMembers` | src/utils/duplicateHandler.js:18-24 | an index is recorded under a phone exactly when its contact has that phone |
| `DuplicateHandler.EntryGroup` | src/utils/duplicateHandler.js:30-34 | an entry gives at most one group, under its own phone |
| `DuplicateHandler.GroupOfEntry` | src/utils/duplicateHandler.js:30-34 | an entry with more than one index gives a group of all contacts with that phone |
| `DuplicateHandler.PhoneIndexHolds` | src/utils/duplicateHandler.js:18-26 | every entry of the finished map is under a non-empty phone and lists all contacts with it |
| `DuplicateHandler.EntryGroupsSpec` | src/utils/duplicateHandler.js:29-34 | the groups of a list of keys are exactly the groups of those keys whose entries have two or more indices |
| `DuplicateHandler.DistinctPhonesAppend` | src/utils/duplicateHandler.js:29-34 | adding a group under a new phone keeps the phones of the groups distinct |
| `DuplicateHandler.EntryGroupsDistinct` | src/utils/duplicateHandler.js:29-34 | distinct keys give groups with distinct phones |
| `DuplicateHandler.DuplicateGroupsSound` | src/utils/duplicateHandler.js:14-37 | every group has a non-empty phone, at least two members, exactly the recorded indices of that phone, and each member is the contact at its index |
| `DuplicateHandler.DuplicateGroupsComplete` | src/utils/duplicateHandler.js:14-37 | every non-empty phone shared by two or more contacts has a group |
| `DuplicateHandler.DuplicateGroupsDistinct` | src/utils/duplicateHandler.js:29-34 | no two groups have the same phone |
| `DuplicateHandler.DuplicateGroupMembership` | src/utils/duplicateHandler.js:18-33 | a contact is in a group exactly when its trimmed phone is the group's phone, and the members are in list order |
| `DuplicateHandler.DuplicateGroups` | src/utils/duplicateHandler.js:29-34 | the groups of the phone index's entries with two or more indices, in own-key order; `DuplicateGroupsSound`, `DuplicateGroupsComplete` and `DuplicateGroupsDistinct` state them |
| `DuplicateHandler.MergeContacts` | src/utils/duplicateHandler.js:48-64 | the `filter` of the merge; `MergeMembers`, `MergeSubsequence` and `MergeIdempotent` state what it keeps |
| `DuplicateHandler.MergeSubsequence` | src/utils/duplicateHandler.js:48-64 | the merge only drops contacts and keeps the others in order |
| `DuplicateHandler.MergeMembers` | src/utils/duplicateHandler.js:49-63 | a contact survives the merge exactly when it has no phone, or no group has its phone, or its name is the one selected for its phone |
| `DuplicateHandler.MergeIdempotent` | src/utils/duplicateHandler.js:48-64 | merging again with the same groups and selections changes nothing |
| `DuplicateHandler.InitializeMergeSelections` | src/utils/duplicateHandler.js:71-77 | the loop computes the selections, where each group's phone maps to its first member's name |
| `DuplicateHandler.InitialSelections` | src/utils/duplicateHandler.js:72-76 | the selections after a prefix of the groups; `InitialSelectionsDomain` and `InitialSelectionsAt` state them |
| `DuplicateHandler.InitialSelectionsDomain` | src/utils/duplicateHandler.js:73-75 | the selections hold only the phones of the groups |
| `DuplicateHandler.InitialSelectionsAt` | src/utils/duplicateHandler.js:74 | a group's phone maps to its first member's name, unless a later group has the same phone |
| `DuplicateHandler.SelectedMemberKept` | src/utils/duplicateHandler.js:56-62 | a group member whose name is the selected one survives the merge |
| `DuplicateHandler.MergeKeepsOnePerGroup` | src/utils/duplicateHandler.js:71-77 | every duplicate group is non-empty, and with the initial selections the merge keeps each group's first contact |
| `ContactConverter.QuoteAll` | src/utils/contactConverter.js:12-17 | every field of a row is quoted, in order: each output field is the value with its quotes doubled, in quotes |
| `ContactConverter.Records` | src/utils/contactConverter.js:12-19 | one record per contact, in order, each the contact's quoted fields joined by commas |
| `ContactConverter.ReadQuotedDoubled` | src/utils/contactConverter.js:13-16 | doubling the quotes of a value can be undone: the value reads back, up to the closing quote |
| `ContactConverter.ReadFieldQuote` | src/utils/contactConverter.js:13-16 | a quoted field reads back as the value it quotes |
| `ContactConverter.ReadFieldsJoin` | src/utils/contactConverter.js:19 | a row joined with `,` reads back as its values |
| `ContactConverter.ReadRecordCsv` | src/utils/contactConverter.js:12-19 | a contact's record reads back as that contact |
| `ContactConverter.ReadRecordsJoin` | src/utils/contactConverter.js:19 | records joined with line feeds read back as the contacts, in order |
| `ContactConverter.CsvRoundTrip` | src/utils/contactConverter.js:6-26 | the export is lossless: reading it back gives the contacts, or no contacts for a missing or empty list |
| `ContactConverter.ConvertToCSV` | src/utils/contactConverter.js:6-26 | the export starts with the byte order mark exactly when the list is non-empty; a missing or empty list gives only the header line (`CsvRoundTrip` states what the rest holds) |
| `ContactConverter.CardsLines` | src/utils/contactConverter.js:30-54 | one line array per contact, in order |
| `ContactConverter.JoinSpaced` | src/utils/contactConverter.js:53-55 | blocks joined by `\n\n` are their lines joined by `\n`, with an empty line between blocks |
| `ContactConverter.VCardDocumentJoin` | src/utils/contactConverter.js:29-58 | the export is the lines of all cards, with an empty line between cards, joined by line feeds |
| `ContactConverter.CardLinesFree` | src/utils/contactConverter.js:32-51 | no line of a card holds a line feed when no field and no N value does |
| `ContactConverter.NValueChars` | src/utils/contactConverter.js:36 | the N value holds only characters of the name and `;` |
| `ContactConverter.SpacedMembers` | src/utils/contactConverter.js:53-55 | every line of the document is empty or a line of a card |
| `ContactConverter.VCardExportLines` | src/utils/contactConverter.js:29-58 | when no field holds a line feed, splitting the export at line feeds gives back exactly the cards' lines, with an empty line between cards |
| `ContactConverter.ConvertToVCard` | src/utils/contactConverter.js:29-58 | the export is empty exactly when the list is (`VCardExportLines` and `VCardDocumentJoin` state what it holds) |
| `ContactConverter.NValue` | src/utils/contactConverter.js:36 | the `N` value: the name's space-separated words in reverse order, joined by `;`; `NValueChars` and `NValueRoundTrip` state its content |
| `ContactConverter.NValueRoundTrip` | src/utils/contactConverter.js:36 | for a name without `;`, splitting the N value at `;`, reversing, and joining with spaces gives the name back |
| `ContactConverter.OptionalMembership` | src/utils/contactConverter.js:32-51 | the lines beyond the fixed ones are exactly the optional property lines |
| `ContactConverter.VCardLinesShape` | src/utils/contactConverter.js:32-51 | a card starts with `BEGIN:VCARD`, `VERSION:3.0`, the `FN` line and the `N` line, and ends with `END:VCARD`; a phone line comes right after `N`, and an address line right before `END` |
| `ContactConverter.VCardPropertyLines` | src/utils/contactConverter.js:39-49 | the `TEL`, `EMAIL` and `ADR` lines are present exactly when the phone, e-mail or address is non-empty |

## Left out

- The browser's `DOMParser` and the selector queries (`querySelectorAll('table')`, `'tr'`, `'td'`, `'td, th'`, `'div div'`) are not modelled. Their results are the fields of `Document`.
- `ContactPipeline.ContactsFromHTML` and `ContactPipeline.ParseContactsFromHTML` read the contact-tagged elements with the field selectors as evidently intended (see "## Findings").
  - As written, the source returns a result only for documents where no element matches `[class*="contact"], [data-contact], .vcard`. Its extractor then yields `[]`.
  - `ContactPipeline.ContactsFromHTMLAsWritten` models that behaviour.
  - The exception itself, which the caller catches and reports, is modelled as `None`.
- `textContent` and `innerText` are inputs. Layout-dependent line breaking in `innerText` is not modelled.
- `convertToJSON` (`JSON.stringify` formatting) and `downloadFile` (Blob, object URL, DOM click) are not modelled. They are I/O around the converters.
- The React components are not modelled. They only call these utilities and display their results.
- `Strings.ToLower` maps ASCII letters only. JavaScript's `toLowerCase` uses full Unicode case mapping.
  - De-duplication by lower-case name is therefore modelled exactly for ASCII names only.
- Strings are sequences of code points. JavaScript string lengths count UTF-16 code units, which matters for names outside the Basic Multilingual Plane:
  - the `trimmedLine.length > 5` test in the text strategy;
  - the `< 100` test in the text strategy.
- Contact fields are always strings. Every strategy builds all four fields as strings (src/utils/contactParser.js:47-50, 86-90, 109-113, 152-156, 192-196), so no missing field reaches de-duplication, `findDuplicates` or `mergeContacts`. Contacts with missing fields, which only other callers could pass, are not modelled. They would behave differently from contacts with empty fields in two places:
  - `c.name.toLowerCase()` throws on a missing name;
  - `contact.name === mergeSelections[phone]` holds when both the name and the selection are missing.
- `DuplicateHandler.RecordPhone`: a phone equal to a name that `Object.prototype` already has (`constructor`, `toString`, `__proto__`, …) is treated like any other phone. In the source such a key reads an inherited value, and the `push` throws or misbehaves.
- `DuplicateHandler.MergeMembers`: the source's `mergeSelections[phone]` also reads inherited properties. The model looks up own keys only.
- `DuplicateHandler.DuplicateGroupsSound`: states which groups appear and what they hold. The order of the groups follows JavaScript's own-key order through `AddOwnKey`, but no lemma states that order.
- `DuplicateHandler.InitializeMergeSelections`: requires every group to be non-empty. On an empty group the source throws a TypeError at `group.contacts[0].name`, and the model does not model that error.
- `ContactParser.ParseInstagramFormat`: `currentContact` keeps `undefined` for an unset field and `''` for a field set from an empty cell. The model uses `""` for both, because every test in the source treats them alike.
  - The repeated check at `src/utils/contactParser.js:45` is always true where it runs, and the model folds it into the test above it.
- `ContactParser.VCardContacts`: no lemma relates the vCard export to the vCard parser, because the round trip does not hold.
  - The parser takes the key and the value as the first two `:`-pieces of a line, and the last line that writes a field wins.
  - The exporter writes `N:` after `FN:`, so a name comes back as its `N` value. For example, `Jon Snow` comes back as `Snow;Jon`.
  - An address line `ADR;TYPE=HOME:;;addr;;` comes back as `;;addr;;`.
  - A value containing `:` is cut at it.
- `ContactConverter.VCardExportLines`: requires that no field holds a line feed. The export does not escape line feeds, so such a field splits into several lines.

## Findings

| source | as written | input that shows it | evidently intended | confidence | as-written member | corrected member |
|---|---|---|---|---|---|---|
| src/utils/contactParser.js:110-113 | the field selectors `[class*="name"], [data-name"]` (and likewise for phone, e-mail and address) are not valid CSS, so `querySelector` throws a SyntaxError on the first contact-tagged element, and `parseContactsFromHTML` (line 172) throws with it | a document with a table the primary strategy reads and one `<div class="contact">` | the attribute selectors `[data-name]`, `[data-phone]`, `[data-email]`, `[data-address]` | high, not executed | `ContactPipeline.DivSelectorThrows` | `FallbackStrategies.ParseDivContacts` |
