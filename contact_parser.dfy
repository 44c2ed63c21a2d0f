/**
 * The contact extractor of `src/utils/contactParser.js`: five strategies
 * over one parsed document, a fixed rule choosing which results to use,
 * and de-duplication by (lower-case name, phone).
 *
 * The browser's DOM is not modelled. A document is given as the data the
 * strategies read from it: the raw markup, the tables with their rows,
 * the output of the attribute-tagged extractor, and the body's rendered text.
 */
module ContactParser {
  import opened Wrappers
  import opened Strings
  import opened Contacts
  import opened VCardScan

  /** The first `td` of a row: its `textContent`, and the `textContent` of
      the first element inside it matching the selector `div div`, if any. */
  datatype FirstCell = FirstCell(text: string, innerDiv: Option<string>)

  /** A `tr`: its first `td` (None when it has no `td`) and the
      `textContent` of each of its `td` and `th` cells, in document order. */
  datatype Row = Row(firstTd: Option<FirstCell>, cells: seq<string>)

  /** The rows `table.querySelectorAll('tr')` returns for one table. */
  type Table = seq<Row>

  /** An element matching `[class*="contact"], [data-contact], .vcard`: the
      `textContent` of its first descendant matching the name, phone,
      e-mail and address selectors, None where no descendant matches. */
  datatype ContactElement = ContactElement(name: Option<string>, phone: Option<string>,
                                           email: Option<string>, address: Option<string>)

  /** What the strategies read from the parsed document. */
  datatype Document = Document(
    html: string,                            // the markup text itself
    tables: seq<Table>,                      // `doc.querySelectorAll('table')`, in document order
    contactElements: seq<ContactElement>,    // the contact-tagged elements, in document order
    bodyText: string)                        // `doc.body.innerText`

  // ---------------------------------------------------------------------
  // Strategy 1 (primary): the label-driven fold over table rows
  // ---------------------------------------------------------------------

  /** The partly filled `currentContact`; "" stands for a field not yet set,
      which the source treats alike (both are falsy). */
  datatype Acc = Acc(firstName: string, lastName: string, phone: string,
                     email: string, address: string)

  const EmptyAcc := Acc("", "", "", "", "")

  /** The contacts emitted so far and the accumulator carried to the next row. */
  datatype LabelScan = LabelScan(out: seq<Contact>, acc: Acc)

  /** The field a first cell fills, decided by the first label its text
      contains, in this order of precedence. */
  datatype Label = FirstNameLabel | LastNameLabel | PhoneLabel | EmailLabel | AddressLabel | NoLabel

  function Classify(text: string): Label {
    if Contains(text, "First Name") then FirstNameLabel
    else if Contains(text, "Last Name") then LastNameLabel
    else if Contains(text, "Contact Information") || Contains(text, "Phone") then PhoneLabel
    else if Contains(text, "Email") then EmailLabel
    else if Contains(text, "Address") then AddressLabel
    else NoLabel
  }

  /** `td.querySelector('div div')?.textContent?.trim() || ''` */
  function CellValue(cell: FirstCell): string {
    match cell.innerDiv
    case Some(t) => Trim(t)
    case None => ""
  }

  function Assign(acc: Acc, field: Label, v: string): Acc {
    match field
    case FirstNameLabel => acc.(firstName := v)
    case LastNameLabel => acc.(lastName := v)
    case PhoneLabel => acc.(phone := v)
    case EmailLabel => acc.(email := v)
    case AddressLabel => acc.(address := v)
    case NoLabel => acc
  }

  /** The accumulator holds a first name, a last name or a phone. */
  predicate HasKey(acc: Acc) {
    acc.firstName != "" || acc.lastName != "" || acc.phone != ""
  }

  /** The labels whose row completes a contact. "Phone" is not one of them. */
  predicate IsFlushCell(text: string) {
    Contains(text, "Contact Information") || Contains(text, "Email") || Contains(text, "Address")
  }

  function Emit(acc: Acc): Contact {
    Contact(Trim(acc.firstName + " " + acc.lastName), acc.phone, acc.email, acc.address)
  }

  /** One row of the fold; `isLast` says the row is its table's last row. */
  function LabelStep(st: LabelScan, row: Row, isLast: bool): LabelScan {
    match row.firstTd
    case None => st
    case Some(cell) =>
      var acc := Assign(st.acc, Classify(cell.text), CellValue(cell));
      if HasKey(acc) && (IsFlushCell(cell.text) || isLast) then
        LabelScan(st.out + [Emit(acc)], EmptyAcc)
      else
        LabelScan(st.out, acc)
  }

  /** The fold over the first `n` rows of one table, starting from `st`. */
  function LabelRows(rows: Table, n: nat, st: LabelScan): LabelScan
    requires n <= |rows|
  {
    if n == 0 then st
    else LabelStep(LabelRows(rows, n - 1, st), rows[n - 1], n == |rows|)
  }

  /** The fold over all tables; the accumulator is carried from one table to the next. */
  function LabelTables(tables: seq<Table>): LabelScan {
    if tables == [] then LabelScan([], EmptyAcc)
    else
      var t := tables[|tables| - 1];
      LabelRows(t, |t|, LabelTables(tables[..|tables| - 1]))
  }

  function InstagramContacts(tables: seq<Table>): seq<Contact> {
    LabelTables(tables).out
  }

  /** The label test of the `forEach` callback: the field named by the
      first cell's text receives the value of its nested `div`. */
  method FillField(current: Acc, text: string, divContent: string) returns (currentContact: Acc)
    ensures currentContact == Assign(current, Classify(text), divContent)
  {
    currentContact := current;
    if Contains(text, "First Name") {
      currentContact := currentContact.(firstName := divContent);
    } else if Contains(text, "Last Name") {
      currentContact := currentContact.(lastName := divContent);
    } else if Contains(text, "Contact Information") || Contains(text, "Phone") {
      currentContact := currentContact.(phone := divContent);
    } else if Contains(text, "Email") {
      currentContact := currentContact.(email := divContent);
    } else if Contains(text, "Address") {
      currentContact := currentContact.(address := divContent);
    }
  }

  /** The `forEach` callback of `parseInstagramFormat` for one row:
      `currentContact` is updated in place and may be pushed and reset. */
  method VisitLabelRow(parsed: seq<Contact>, current: Acc, row: Row, isLast: bool)
    returns (parsedContacts: seq<Contact>, currentContact: Acc)
    ensures LabelScan(parsedContacts, currentContact)
            == LabelStep(LabelScan(parsed, current), row, isLast)
  {
    parsedContacts, currentContact := parsed, current;
    if row.firstTd.Some? {
      var text := row.firstTd.value.text;
      var divContent := CellValue(row.firstTd.value);
      currentContact := FillField(current, text, divContent);
      ghost var acc := currentContact;
      if currentContact.firstName != "" || currentContact.lastName != "" || currentContact.phone != "" {
        if Contains(text, "Contact Information") || Contains(text, "Email")
           || Contains(text, "Address") || isLast
        {
          var name := Trim(currentContact.firstName + " " + currentContact.lastName);
          parsedContacts := parsedContacts
            + [Contact(name, currentContact.phone, currentContact.email, currentContact.address)];
          currentContact := EmptyAcc;
        }
      }
      assert HasKey(acc) && (IsFlushCell(text) || isLast) ==> parsedContacts == parsed + [Emit(acc)];
    }
  }

  /** `parseInstagramFormat`: the primary strategy, as the source runs it. */
  method ParseInstagramFormat(tables: seq<Table>) returns (parsedContacts: seq<Contact>)
    ensures parsedContacts == InstagramContacts(tables)
  {
    parsedContacts := [];
    var currentContact := EmptyAcc;
    for t := 0 to |tables|
      invariant LabelScan(parsedContacts, currentContact) == LabelTables(tables[..t])
    {
      var rows := tables[t];
      ghost var before := LabelTables(tables[..t]);
      for r := 0 to |rows|
        invariant LabelScan(parsedContacts, currentContact) == LabelRows(rows, r, before)
      {
        parsedContacts, currentContact :=
          VisitLabelRow(parsedContacts, currentContact, rows[r], r == |rows| - 1);
      }
      assert tables[..t + 1][..t] == tables[..t];
    }
    assert tables[..|tables|] == tables;
  }

  // Properties of the primary strategy

  /** Every field of the accumulator came out of a `trim`. */
  predicate TidyAcc(acc: Acc) {
    Trimmed(acc.firstName) && Trimmed(acc.lastName) && Trimmed(acc.phone)
    && Trimmed(acc.email) && Trimmed(acc.address)
  }

  /** What every emitted contact looks like: a name or a phone, and every
      field trimmed. */
  predicate LabelShaped(c: Contact) {
    (c.name != "" || c.phone != "")
    && Trimmed(c.name) && Trimmed(c.phone) && Trimmed(c.email) && Trimmed(c.address)
  }

  predicate GoodScan(st: LabelScan) {
    TidyAcc(st.acc) && forall c :: c in st.out ==> LabelShaped(c)
  }

  /** A contact is emitted only from an accumulator holding a key, and
      its name is the trimmed "first last". */
  lemma EmitShaped(acc: Acc)
    requires TidyAcc(acc) && HasKey(acc)
    ensures LabelShaped(Emit(acc))
  {
    var f, l := acc.firstName, acc.lastName;
    if f != "" {
      assert [] + f + (" " + l) == f + " " + l;
      TrimNonEmpty(f, [], " " + l);
    } else if l != "" {
      assert (f + " ") + l + [] == f + " " + l;
      TrimNonEmpty(l, f + " ", []);
    }
  }

  lemma AssignTidy(acc: Acc, field: Label, v: string)
    requires TidyAcc(acc) && Trimmed(v)
    ensures TidyAcc(Assign(acc, field, v))
  {
  }

  /** One row keeps the accumulator tidy and only emits well-shaped contacts. */
  lemma LabelStepGood(st: LabelScan, row: Row, isLast: bool)
    requires GoodScan(st)
    ensures GoodScan(LabelStep(st, row, isLast))
  {
    if row.firstTd.Some? {
      var cell := row.firstTd.value;
      var acc := Assign(st.acc, Classify(cell.text), CellValue(cell));
      AssignTidy(st.acc, Classify(cell.text), CellValue(cell));
      if HasKey(acc) && (IsFlushCell(cell.text) || isLast) {
        EmitShaped(acc);
        var out := st.out + [Emit(acc)];
        assert forall c :: c in out ==> c in st.out || c == Emit(acc);
        assert LabelStep(st, row, isLast) == LabelScan(out, EmptyAcc);
      } else {
        assert LabelStep(st, row, isLast) == LabelScan(st.out, acc);
      }
    }
  }

  lemma {:induction false} LabelRowsGood(rows: Table, n: nat, st: LabelScan)
    requires n <= |rows| && GoodScan(st)
    ensures GoodScan(LabelRows(rows, n, st))
  {
    if n > 0 {
      LabelRowsGood(rows, n - 1, st);
      LabelStepGood(LabelRows(rows, n - 1, st), rows[n - 1], n == |rows|);
    }
  }

  lemma {:induction false} LabelTablesGood(tables: seq<Table>)
    ensures GoodScan(LabelTables(tables))
  {
    if tables != [] {
      LabelTablesGood(tables[..|tables| - 1]);
      var t := tables[|tables| - 1];
      LabelRowsGood(t, |t|, LabelTables(tables[..|tables| - 1]));
    }
  }

  /** Every contact of the primary strategy has a name or a phone, and
      all its fields are trimmed. */
  lemma InstagramContactsShaped(tables: seq<Table>)
    ensures forall c :: c in InstagramContacts(tables) ==> LabelShaped(c)
  {
    LabelTablesGood(tables);
  }

  /** A row labelled "Phone" and with none of the completing labels only
      records the phone: nothing is emitted unless it is the last row. */
  lemma PhoneRowDoesNotFlush(st: LabelScan, row: Row)
    requires row.firstTd.Some? && Classify(row.firstTd.value.text) == PhoneLabel
    requires !IsFlushCell(row.firstTd.value.text)
    ensures LabelStep(st, row, false) == LabelScan(st.out, st.acc.(phone := CellValue(row.firstTd.value)))
  {
  }

  /** A table whose last row has a `td` never hands a contact with a key
      on to the next table: either the last row completed the contact, or
      the accumulator held no key. Only a last row without a `td` carries
      a partly filled contact across tables. */
  lemma LastRowFlushes(rows: Table, st: LabelScan)
    requires rows != [] && rows[|rows| - 1].firstTd.Some?
    ensures !HasKey(LabelRows(rows, |rows|, st).acc)
  {
  }

  /** A trailing row without a `td` changes nothing, and the row before it
      is then not treated as the last one. */
  lemma LastRowWithoutTd(rows: Table, st: LabelScan)
    requires rows != [] && rows[|rows| - 1].firstTd.None?
    ensures LabelRows(rows, |rows|, st) == LabelRows(rows, |rows| - 1, st)
  {
  }

  /** The scan over a further table starts from the state the previous
      tables left: the accumulator is not reset between tables. */
  lemma LabelTablesAppend(tables: seq<Table>, t: Table)
    ensures LabelTables(tables + [t]) == LabelRows(t, |t|, LabelTables(tables))
  {
    assert (tables + [t])[..|tables|] == tables;
  }

  // ---------------------------------------------------------------------
  // Strategy 2: vCard blocks in the raw markup, and `parseVCard`
  // ---------------------------------------------------------------------

  /** The fields a vCard line can write. */
  datatype VField = NameField | PhoneField | EmailField | AddressField

  /** The `switch` on the key type: FN and N both write the name. */
  function FieldOfType(keyType: string): Option<VField> {
    match keyType
    case "FN" => Some(NameField)
    case "N" => Some(NameField)
    case "TEL" => Some(PhoneField)
    case "EMAIL" => Some(EmailField)
    case "ADR" => Some(AddressField)
    case _ => None
  }

  /** What one line writes: `const [key, value] = line.split(':')`, lines
      with an empty key or no (or an empty) value are skipped, and the key
      type is the key up to its first ';'. */
  function VCardLine(line: string): Option<(VField, string)> {
    var parts := Split(line, ':');
    if parts[0] == "" || |parts| < 2 || parts[1] == "" then None
    else
      match FieldOfType(Split(parts[0], ';')[0])
      case None => None
      case Some(f) => Some((f, Trim(parts[1])))
  }

  function Field(c: Contact, f: VField): string {
    match f
    case NameField => c.name
    case PhoneField => c.phone
    case EmailField => c.email
    case AddressField => c.address
  }

  function SetField(c: Contact, f: VField, v: string): Contact {
    match f
    case NameField => c.(name := v)
    case PhoneField => c.(phone := v)
    case EmailField => c.(email := v)
    case AddressField => c.(address := v)
  }

  function ApplyVCardLine(c: Contact, line: string): Contact {
    match VCardLine(line)
    case None => c
    case Some((f, v)) => SetField(c, f, v)
  }

  /** The record after the first `n` lines, starting from all fields "". */
  function ApplyVCardLines(lines: seq<string>, n: nat): Contact
    requires n <= |lines|
  {
    if n == 0 then Blank else ApplyVCardLine(ApplyVCardLines(lines, n - 1), lines[n - 1])
  }

  function VCardContact(text: string): Contact {
    var lines := Split(text, '\n');
    ApplyVCardLines(lines, |lines|)
  }

  /** `parseVCard` */
  method ParseVCard(vCardText: string) returns (contact: Contact)
    ensures contact == VCardContact(vCardText)
  {
    contact := Contact("", "", "", "");
    var lines := Split(vCardText, '\n');
    for n := 0 to |lines|
      invariant contact == ApplyVCardLines(lines, n)
    {
      var parts := Split(lines[n], ':');
      var key := parts[0];
      if key == "" || |parts| < 2 || parts[1] == "" {
        continue;
      }
      var value := parts[1];
      var keyType := Split(key, ';')[0];
      match keyType {
        case "FN" => contact := contact.(name := Trim(value));
        case "N" => contact := contact.(name := Trim(value));
        case "TEL" => contact := contact.(phone := Trim(value));
        case "EMAIL" => contact := contact.(email := Trim(value));
        case "ADR" => contact := contact.(address := Trim(value));
        case _ =>
      }
    }
  }

  /** The line writes field `f`. */
  predicate Writes(line: string, f: VField) {
    VCardLine(line).Some? && VCardLine(line).value.0 == f
  }

  /** A field of the parsed record holds the value of the last line that
      writes it: a later FN or N line overrides an earlier one. */
  lemma {:induction false} VCardLastLineWins(lines: seq<string>, n: nat, i: nat, f: VField, v: string)
    requires i < n <= |lines|
    requires VCardLine(lines[i]) == Some((f, v))
    requires forall j :: i < j < n ==> !Writes(lines[j], f)
    ensures Field(ApplyVCardLines(lines, n), f) == v
  {
    if n - 1 > i {
      VCardLastLineWins(lines, n - 1, i, f, v);
      assert !Writes(lines[n - 1], f);
    }
  }

  /** A field no line writes keeps its default "". */
  lemma {:induction false} VCardFieldUnset(lines: seq<string>, n: nat, f: VField)
    requires n <= |lines|
    requires forall j :: 0 <= j < n ==> !Writes(lines[j], f)
    ensures Field(ApplyVCardLines(lines, n), f) == ""
  {
    if n > 0 {
      VCardFieldUnset(lines, n - 1, f);
      assert !Writes(lines[n - 1], f);
    }
  }

  /** A line is cut at its colons: the key is the text before the first
      ':' and the value the text between the first and the second. */
  lemma VCardLineOfParts(parts: seq<string>)
    requires |parts| >= 1 && forall p :: p in parts ==> ':' !in p
    ensures VCardLine(Join(parts, ":")) ==
      if parts[0] == "" || |parts| < 2 || parts[1] == "" then None
      else if FieldOfType(Split(parts[0], ';')[0]).None? then None
      else Some((FieldOfType(Split(parts[0], ';')[0]).value, Trim(parts[1])))
  {
    SplitJoin(parts, ':');
  }

  /** A line `key:value` with no further colon and no ';' in the key. */
  lemma VCardSimpleLine(key: string, value: string)
    requires key != "" && value != "" && ':' !in key && ':' !in value && ';' !in key
    ensures VCardLine(key + ":" + value) ==
      if FieldOfType(key).None? then None else Some((FieldOfType(key).value, Trim(value)))
  {
    assert Join([key, value], ":") == key + ":" + value;
    VCardLineOfParts([key, value]);
    SplitNoSeparator(key, ';');
  }

  /** `blocks.map(parseVCard)`, one card per block. */
  function CardsOf(blocks: seq<string>): (cards: seq<Contact>)
    ensures |cards| == |blocks|
    ensures forall k :: 0 <= k < |blocks| ==> cards[k] == VCardContact(blocks[k])
  {
    if blocks == [] then []
    else CardsOf(blocks[..|blocks| - 1]) + [VCardContact(blocks[|blocks| - 1])]
  }

  function VCardContacts(html: string): seq<Contact> {
    CardsOf(VCardBlocks(html))
  }

  /** `parseVCardFromHTML`: one parsed card per match, in text order. */
  method ParseVCardFromHTML(htmlContent: string) returns (vCardContacts: seq<Contact>)
    ensures vCardContacts == VCardContacts(htmlContent)
  {
    var matches := VCardBlocks(htmlContent);
    vCardContacts := [];
    for k := 0 to |matches|
      invariant vCardContacts == CardsOf(matches[..k])
    {
      var contact := ParseVCard(matches[k]);
      vCardContacts := vCardContacts + [contact];
      assert matches[..k + 1][..k] == matches[..k];
    }
    assert matches[..|matches|] == matches;
  }
}
