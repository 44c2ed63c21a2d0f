/**
 * The three fallback strategies of `parseContactsFromHTML` that read the
 * document without labels: the positional table-row mapper
 * (`parseTableContacts`), the extractor for contact-tagged elements
 * (`parseDivContacts`) and the line classifier over the body's rendered
 * text (`parseTextContacts`).
 */
module FallbackStrategies {
  import opened Wrappers
  import opened Strings
  import opened Sequences
  import opened Contacts
  import opened ContactParser

  // ---------------------------------------------------------------------
  // Strategy 3: positional table rows
  // ---------------------------------------------------------------------

  /** `cells[k]?.textContent?.trim() || ''`: a missing cell reads as "". */
  function CellText(cells: seq<string>, k: nat): (r: string)
    ensures Trimmed(r)
    ensures k < |cells| ==> r == Trim(cells[k])
    ensures k >= |cells| ==> r == ""
  {
    if k < |cells| then Trim(cells[k]) else ""
  }

  /** The contact one row yields: columns 0 to 3 are name, phone, email and
      address; rows with fewer than two cells, or whose name is empty once
      trimmed, yield none. */
  function RowContact(cells: seq<string>): Option<Contact> {
    if |cells| >= 2 then
      var contact := Contact(CellText(cells, 0), CellText(cells, 1), CellText(cells, 2), CellText(cells, 3));
      if contact.name != "" then Some(contact) else None
    else None
  }

  function AsSeq<T>(o: Option<T>): seq<T> {
    match o
    case None => []
    case Some(v) => [v]
  }

  /** The contacts of one table's rows, in row order. */
  function RowsContacts(rows: Table): seq<Contact> {
    if rows == [] then []
    else RowsContacts(rows[..|rows| - 1]) + AsSeq(RowContact(rows[|rows| - 1].cells))
  }

  /** The contacts of all tables, in document order. */
  function TableContacts(tables: seq<Table>): seq<Contact> {
    if tables == [] then []
    else TableContacts(tables[..|tables| - 1]) + RowsContacts(tables[|tables| - 1])
  }

  /** The `rows.forEach` callback of `parseTableContacts` over one table. */
  method VisitTableRows(tableContacts: seq<Contact>, rows: Table) returns (out: seq<Contact>)
    ensures out == tableContacts + RowsContacts(rows)
  {
    out := tableContacts;
    for r := 0 to |rows|
      invariant out == tableContacts + RowsContacts(rows[..r])
    {
      var cells := rows[r].cells;
      if |cells| >= 2 {
        var contact := Contact(CellText(cells, 0), CellText(cells, 1), CellText(cells, 2), CellText(cells, 3));
        if contact.name != "" {
          out := out + [contact];
        }
      }
      assert rows[..r + 1][..r] == rows[..r];
      assert RowsContacts(rows[..r + 1]) == RowsContacts(rows[..r]) + AsSeq(RowContact(cells));
    }
    assert rows[..|rows|] == rows;
  }

  /** `parseTableContacts`, as the source runs it. */
  method ParseTableContacts(tables: seq<Table>) returns (tableContacts: seq<Contact>)
    ensures tableContacts == TableContacts(tables)
  {
    tableContacts := [];
    for t := 0 to |tables|
      invariant tableContacts == TableContacts(tables[..t])
    {
      tableContacts := VisitTableRows(tableContacts, tables[t]);
      assert tables[..t + 1][..t] == tables[..t];
    }
    assert tables[..|tables|] == tables;
  }

  /** Row `r` of one table yields `c`. */
  ghost predicate RowYields(rows: Table, c: Contact) {
    exists r :: 0 <= r < |rows| && RowContact(rows[r].cells) == Some(c)
  }

  /** Some row of some table yields `c`. */
  ghost predicate TablesYield(tables: seq<Table>, c: Contact) {
    exists t :: 0 <= t < |tables| && RowYields(tables[t], c)
  }

  /** A row yields a contact exactly when it has at least two cells and
      its first cell is not blank; the contact is then the trimmed first
      four cells, "" for each missing one, and its name is not empty. */
  lemma RowContactColumns(cells: seq<string>)
    ensures RowContact(cells).Some? <==> |cells| >= 2 && !AllSpace(cells[0])
    ensures RowContact(cells).Some? ==>
      var c := RowContact(cells).value;
      && c.name == Trim(cells[0]) != "" && c.phone == Trim(cells[1])
      && c.email == (if |cells| > 2 then Trim(cells[2]) else "")
      && c.address == (if |cells| > 3 then Trim(cells[3]) else "")
  {
  }

  lemma {:induction false} RowsContactsMembers(rows: Table)
    ensures forall c :: c in RowsContacts(rows) <==> RowYields(rows, c)
  {
    if rows != [] {
      var init := rows[..|rows| - 1];
      RowsContactsMembers(init);
      forall c | RowYields(rows, c)
        ensures c in RowsContacts(rows)
      {
        var r :| 0 <= r < |rows| && RowContact(rows[r].cells) == Some(c);
        if r < |rows| - 1 {
          assert init[r] == rows[r];
          assert RowYields(init, c);
        }
      }
      forall c | c in RowsContacts(rows)
        ensures RowYields(rows, c)
      {
        if c in RowsContacts(init) {
          var r :| 0 <= r < |init| && RowContact(init[r].cells) == Some(c);
          assert rows[r] == init[r];
        } else {
          assert RowContact(rows[|rows| - 1].cells) == Some(c);
        }
      }
    }
  }

  /** The table strategy yields exactly the contacts its rows yield. */
  lemma {:induction false} TableContactsMembers(tables: seq<Table>)
    ensures forall c :: c in TableContacts(tables) <==> TablesYield(tables, c)
  {
    if tables != [] {
      var init, last := tables[..|tables| - 1], tables[|tables| - 1];
      TableContactsMembers(init);
      RowsContactsMembers(last);
      forall c | TablesYield(tables, c)
        ensures c in TableContacts(tables)
      {
        var t :| 0 <= t < |tables| && RowYields(tables[t], c);
        if t < |tables| - 1 {
          assert init[t] == tables[t];
          assert TablesYield(init, c);
        }
      }
      forall c | c in TableContacts(tables)
        ensures TablesYield(tables, c)
      {
        if c in TableContacts(init) {
          var t :| 0 <= t < |init| && RowYields(init[t], c);
          assert tables[t] == init[t];
        } else {
          assert RowYields(last, c);
        }
      }
    }
  }

  /** Every contact of the table strategy has a name, and all its fields
      are trimmed. */
  lemma TableContactsShaped(tables: seq<Table>)
    ensures forall c :: c in TableContacts(tables) ==>
      c.name != "" && Trimmed(c.name) && Trimmed(c.phone) && Trimmed(c.email) && Trimmed(c.address)
  {
    TableContactsMembers(tables);
  }

  // ---------------------------------------------------------------------
  // Strategy 4: contact-tagged elements
  // ---------------------------------------------------------------------

  /** `div.querySelector(...)?.textContent?.trim() || ''` */
  function MatchText(m: Option<string>): (r: string)
    ensures Trimmed(r)
    ensures r == "" <==> m.None? || AllSpace(m.value)
  {
    match m
    case None => ""
    case Some(t) => Trim(t)
  }

  /** `parseDivContacts` as written. Its four field selectors
      (`[class*="name"], [data-name"]` and the like) are not valid CSS, so
      `querySelector` throws a SyntaxError on the first contact-tagged
      element (None here); only a document without such elements gets
      through, with no contacts. */
  function DivContactsAsWritten(elements: seq<ContactElement>): (r: Option<seq<Contact>>)
    ensures r.Some? <==> elements == []
  {
    if elements == [] then Some([]) else None
  }

  /** The contact of one element with the selectors as intended
      (`[class*="name"], [data-name]` and the like): kept when its name is
      not blank. */
  function ElementContact(e: ContactElement): Option<Contact> {
    var contact := Contact(MatchText(e.name), MatchText(e.phone), MatchText(e.email), MatchText(e.address));
    if contact.name != "" then Some(contact) else None
  }

  /** The contacts of the elements, in document order. */
  function DivContacts(elements: seq<ContactElement>): seq<Contact> {
    if elements == [] then []
    else DivContacts(elements[..|elements| - 1]) + AsSeq(ElementContact(elements[|elements| - 1]))
  }

  /** `parseDivContacts` with the selectors as intended. */
  method ParseDivContacts(contactDivs: seq<ContactElement>) returns (divContacts: seq<Contact>)
    ensures divContacts == DivContacts(contactDivs)
  {
    divContacts := [];
    for k := 0 to |contactDivs|
      invariant divContacts == DivContacts(contactDivs[..k])
    {
      var div := contactDivs[k];
      var contact := Contact(MatchText(div.name), MatchText(div.phone), MatchText(div.email), MatchText(div.address));
      if contact.name != "" {
        divContacts := divContacts + [contact];
      }
      assert contactDivs[..k + 1][..k] == contactDivs[..k];
    }
    assert contactDivs[..|contactDivs|] == contactDivs;
  }

  /** The strategy yields exactly the contacts of the elements with a
      non-blank name, each with its four fields trimmed. */
  lemma {:induction false} DivContactsMembers(elements: seq<ContactElement>)
    ensures forall c :: c in DivContacts(elements) <==>
      exists k :: 0 <= k < |elements| && ElementContact(elements[k]) == Some(c)
    ensures forall c :: c in DivContacts(elements) ==>
      c.name != "" && Trimmed(c.name) && Trimmed(c.phone) && Trimmed(c.email) && Trimmed(c.address)
  {
    if elements != [] {
      var init := elements[..|elements| - 1];
      DivContactsMembers(init);
      forall c, k | 0 <= k < |elements| && ElementContact(elements[k]) == Some(c)
        ensures c in DivContacts(elements)
      {
        if k < |elements| - 1 {
          assert init[k] == elements[k];
        }
      }
      forall c | c in DivContacts(elements)
        ensures exists k :: 0 <= k < |elements| && ElementContact(elements[k]) == Some(c)
      {
        if c in DivContacts(init) {
          var k :| 0 <= k < |init| && ElementContact(init[k]) == Some(c);
          assert elements[k] == init[k];
        } else {
          assert ElementContact(elements[|elements| - 1]) == Some(c);
        }
      }
    }
  }

  // ---------------------------------------------------------------------
  // Strategy 5: the line classifier over the rendered text
  // ---------------------------------------------------------------------

  /** The class `[\d\s\-()]` */
  predicate IsPhoneChar(c: char) {
    IsDigit(c) || IsSpace(c) || c == '-' || c == '(' || c == ')'
  }

  predicate AllPhoneChars(s: string) {
    forall i :: 0 <= i < |s| ==> IsPhoneChar(s[i])
  }

  /** `/^\+?[\d\s\-()]+$/`: an optional '+', then one or more characters
      of the class. */
  predicate PhoneShaped(s: string) {
    (|s| >= 1 && AllPhoneChars(s)) || (|s| >= 2 && s[0] == '+' && AllPhoneChars(s[1..]))
  }

  /** The class `[^\s@]` */
  predicate IsMailChar(c: char) {
    !IsSpace(c) && c != '@'
  }

  predicate AllMailChars(s: string) {
    forall i :: 0 <= i < |s| ==> IsMailChar(s[i])
  }

  /** `/^[^\s@]+@[^\s@]+\.[^\s@]+$/`: a single '@' with something before
      it, no white space anywhere, and after the '@' a '.' that has
      something on both sides. */
  predicate EmailShaped(s: string) {
    exists a, k :: 0 < a && a + 1 < k < |s| - 1 && s[a] == '@' && s[k] == '.'
      && AllMailChars(s[..a]) && AllMailChars(s[a + 1..])
  }

  /** How the classifier reads a trimmed line, in the order it tests. */
  datatype LineKind = PhoneLine | EmailLine | NameLine | OtherLine

  function Kind(t: string): (k: LineKind)
    ensures k == NameLine ==> t != "" && |t| < 100
  {
    if PhoneShaped(t) && |t| > 5 then PhoneLine
    else if EmailShaped(t) then EmailLine
    else if t != "" && |t| < 100 then NameLine
    else OtherLine
  }

  /** A formatted number reads as a phone. */
  lemma PhoneLineExample()
    ensures Kind("+1 (555) 010-9999") == PhoneLine
  {
    var p := "+1 (555) 010-9999";
    assert AllPhoneChars(p[1..]);
  }

  /** An address with an '@' and a dotted domain reads as an e-mail. */
  lemma EmailLineExample()
    ensures Kind("jon@example.com") == EmailLine
  {
    var e := "jon@example.com";
    assert !AllPhoneChars(e) by {
      assert !IsPhoneChar(e[0]);
    }
    assert AllMailChars(e[..3]) && AllMailChars(e[4..]);
    assert e[3] == '@' && e[11] == '.';
  }

  /** Words read as a name. */
  lemma NameLineExample()
    ensures Kind("Jon Snow") == NameLine
  {
    var n := "Jon Snow";
    assert !IsPhoneChar(n[0]) && n[0] != '+';
    assert forall a :: 0 <= a < |n| ==> n[a] != '@';
  }

  /** A number of five characters is too short for a phone, so it reads
      as a name. */
  lemma ShortNumberIsName()
    ensures Kind("12345") == NameLine
  {
    var d := "12345";
    assert forall a :: 0 <= a < |d| ==> d[a] != '@';
  }

  /** A line of the text, trimmed, with its kind. */
  datatype TextLine = TextLine(text: string, kind: LineKind)

  function ClassifyLine(line: string): TextLine {
    var t := Trim(line);
    TextLine(t, Kind(t))
  }

  function ClassifyLines(lines: seq<string>): (cls: seq<TextLine>)
    ensures |cls| == |lines|
    ensures forall i :: 0 <= i < |lines| ==> cls[i] == ClassifyLine(lines[i])
  {
    seq(|lines|, i requires 0 <= i < |lines| => ClassifyLine(lines[i]))
  }

  /** The emitted contacts and `currentContact` (None for `null`). */
  datatype TextScan = TextScan(out: seq<Contact>, current: Option<Contact>)

  /** `if (currentContact && currentContact.name) textContacts.push(currentContact)` */
  function Pending(current: Option<Contact>): seq<Contact> {
    if current.Some? && current.value.name != "" then [current.value] else []
  }

  /** One line of the classifier: a phone or email line fills the open
      contact, if any; a name line emits it and opens a new one. */
  function TextStep(st: TextScan, l: TextLine): TextScan {
    match l.kind
    case PhoneLine =>
      if st.current.Some? then TextScan(st.out, Some(st.current.value.(phone := l.text))) else st
    case EmailLine =>
      if st.current.Some? then TextScan(st.out, Some(st.current.value.(email := l.text))) else st
    case NameLine =>
      TextScan(st.out + Pending(st.current), Some(Contact(l.text, "", "", "")))
    case OtherLine => st
  }

  /** The classifier after the first `n` lines. */
  function TextFold(cls: seq<TextLine>, n: nat): TextScan
    requires n <= |cls|
  {
    if n == 0 then TextScan([], None) else TextStep(TextFold(cls, n - 1), cls[n - 1])
  }

  /** `line.trim()` is truthy. */
  predicate NotBlank(line: string) {
    Trim(line) != ""
  }

  /** `text.split('\n').filter((line) => line.trim())` */
  function TextLines(text: string): seq<string> {
    Filter(Split(text, '\n'), NotBlank)
  }

  function TextContacts(text: string): seq<Contact> {
    var cls := ClassifyLines(TextLines(text));
    var st := TextFold(cls, |cls|);
    st.out + Pending(st.current)
  }

  /** The `forEach` callback of `parseTextContacts` for one line. */
  method VisitTextLine(textContacts: seq<Contact>, current: Option<Contact>, line: string)
    returns (out: seq<Contact>, currentContact: Option<Contact>)
    ensures TextScan(out, currentContact) == TextStep(TextScan(textContacts, current), ClassifyLine(line))
  {
    out, currentContact := textContacts, current;
    var trimmedLine := Trim(line);
    if PhoneShaped(trimmedLine) && |trimmedLine| > 5 {
      if currentContact.Some? {
        currentContact := Some(currentContact.value.(phone := trimmedLine));
      }
    } else if EmailShaped(trimmedLine) {
      if currentContact.Some? {
        currentContact := Some(currentContact.value.(email := trimmedLine));
      }
    } else if trimmedLine != "" && |trimmedLine| < 100 {
      if currentContact.Some? && currentContact.value.name != "" {
        out := out + [currentContact.value];
      }
      currentContact := Some(Contact(trimmedLine, "", "", ""));
    }
  }

  /** The `lines.forEach` loop of `parseTextContacts`. */
  method ScanTextLines(lines: seq<string>) returns (textContacts: seq<Contact>, currentContact: Option<Contact>)
    ensures TextScan(textContacts, currentContact) == TextFold(ClassifyLines(lines), |lines|)
  {
    textContacts, currentContact := [], None;
    ghost var cls := ClassifyLines(lines);
    for n := 0 to |lines|
      invariant TextScan(textContacts, currentContact) == TextFold(cls, n)
    {
      textContacts, currentContact := VisitTextLine(textContacts, currentContact, lines[n]);
    }
  }

  /** `parseTextContacts`, as the source runs it. */
  method ParseTextContacts(text: string) returns (textContacts: seq<Contact>)
    ensures textContacts == TextContacts(text)
  {
    var lines := TextLines(text);
    var currentContact;
    textContacts, currentContact := ScanTextLines(lines);
    if currentContact.Some? && currentContact.value.name != "" {
      textContacts := textContacts + [currentContact.value];
    }
  }

  // Properties of the free-text strategy

  function Names(cs: seq<Contact>): (names: seq<string>)
    ensures |names| == |cs|
    ensures forall i :: 0 <= i < |cs| ==> names[i] == cs[i].name
  {
    seq(|cs|, i requires 0 <= i < |cs| => cs[i].name)
  }

  /** The texts of the name lines among the first `n`, in order. */
  function NameLines(cls: seq<TextLine>, n: nat): seq<string>
    requires n <= |cls|
  {
    if n == 0 then []
    else NameLines(cls, n - 1) + (if cls[n - 1].kind == NameLine then [cls[n - 1].text] else [])
  }

  /** Every line carries the kind of its text, and its text is trimmed. */
  predicate WellClassified(cls: seq<TextLine>) {
    forall i :: 0 <= i < |cls| ==> cls[i].kind == Kind(cls[i].text) && Trimmed(cls[i].text)
  }

  lemma ClassifyLinesWell(lines: seq<string>)
    ensures WellClassified(ClassifyLines(lines))
  {
  }

  /** What the classifier makes of one contact: a name line as the name,
      a phone line or nothing as the phone, an email line or nothing as
      the email, and never an address. */
  predicate TextShaped(c: Contact) {
    && Kind(c.name) == NameLine && Trimmed(c.name)
    && (c.phone == "" || (Kind(c.phone) == PhoneLine && Trimmed(c.phone)))
    && (c.email == "" || (Kind(c.email) == EmailLine && Trimmed(c.email)))
    && c.address == ""
  }

  lemma NamesAppend(a: seq<Contact>, b: seq<Contact>)
    ensures Names(a + b) == Names(a) + Names(b)
  {
  }

  /** The open contact is named, and its name and those of the emitted
      contacts are the texts of the name lines so far. */
  lemma {:induction false} TextFoldNames(cls: seq<TextLine>, n: nat)
    requires n <= |cls| && WellClassified(cls)
    ensures var st := TextFold(cls, n);
      && (st.current.Some? ==> st.current.value.name != "")
      && Names(st.out + Pending(st.current)) == NameLines(cls, n)
  {
    if n > 0 {
      TextFoldNames(cls, n - 1);
      var st := TextFold(cls, n - 1);
      var l := cls[n - 1];
      var st' := TextFold(cls, n);
      if l.kind == NameLine {
        assert Kind(l.text) == NameLine;
        NamesAppend(st.out + Pending(st.current), [Contact(l.text, "", "", "")]);
      } else {
        assert st'.out == st.out;
        assert Names(Pending(st'.current)) == Names(Pending(st.current));
        NamesAppend(st.out, Pending(st.current));
        NamesAppend(st.out, Pending(st'.current));
      }
      assert NameLines(cls, n) == NameLines(cls, n - 1) + (if l.kind == NameLine then [l.text] else []);
    }
  }

  /** The names of the free-text contacts are exactly the name lines,
      trimmed, in order: every name line opens one contact and every
      opened contact is emitted. */
  lemma TextContactsNames(text: string)
    ensures var cls := ClassifyLines(TextLines(text));
      Names(TextContacts(text)) == NameLines(cls, |cls|)
  {
    var cls := ClassifyLines(TextLines(text));
    ClassifyLinesWell(TextLines(text));
    TextFoldNames(cls, |cls|);
  }

  /** Every free-text contact is shaped by the lines that built it. */
  lemma {:induction false} TextFoldShaped(cls: seq<TextLine>, n: nat)
    requires n <= |cls| && WellClassified(cls)
    ensures var st := TextFold(cls, n);
      (forall c :: c in st.out ==> TextShaped(c))
      && (st.current.Some? ==> TextShaped(st.current.value))
  {
    if n > 0 {
      TextFoldShaped(cls, n - 1);
      var st := TextFold(cls, n - 1);
      var l := cls[n - 1];
      assert l.kind == Kind(l.text) && Trimmed(l.text);
      if l.kind == NameLine {
        assert TextShaped(Contact(l.text, "", "", ""));
        var out := st.out + Pending(st.current);
        assert forall c :: c in out ==> c in st.out || c in Pending(st.current);
      }
    }
  }

  lemma TextContactsShaped(text: string)
    ensures forall c :: c in TextContacts(text) ==> TextShaped(c)
  {
    var cls := ClassifyLines(TextLines(text));
    ClassifyLinesWell(TextLines(text));
    TextFoldShaped(cls, |cls|);
    var st := TextFold(cls, |cls|);
    assert forall c :: c in st.out + Pending(st.current) ==> c in st.out || c in Pending(st.current);
  }

  /** Phone and email lines that come before the first name line are
      dropped: nothing is emitted and no contact is open. */
  lemma {:induction false} TextLeadingLinesDropped(cls: seq<TextLine>, n: nat)
    requires n <= |cls|
    requires forall i :: 0 <= i < n ==> cls[i].kind != NameLine
    ensures TextFold(cls, n) == TextScan([], None)
  {
    if n > 0 {
      TextLeadingLinesDropped(cls, n - 1);
      assert cls[n - 1].kind != NameLine;
    }
  }

  /** Once a name line has been read, a contact stays open, named by the
      last name line, and nothing more is emitted until the next one. */
  lemma {:induction false} TextContactOpen(cls: seq<TextLine>, n: nat, i: nat)
    requires i < n <= |cls| && cls[i].kind == NameLine
    requires forall m :: i < m < n ==> cls[m].kind != NameLine
    ensures TextFold(cls, n).current.Some?
    ensures TextFold(cls, n).current.value.name == cls[i].text
    ensures TextFold(cls, n).out == TextFold(cls, i + 1).out
  {
    if n - 1 > i {
      TextContactOpen(cls, n - 1, i);
      assert cls[n - 1].kind != NameLine;
    }
  }

  /** The open contact's phone is the last phone line read since its
      name line: a later phone line overwrites an earlier one. */
  lemma {:induction false} TextLastPhoneWins(cls: seq<TextLine>, n: nat, i: nat, j: nat)
    requires i < j < n <= |cls|
    requires cls[i].kind == NameLine && cls[j].kind == PhoneLine
    requires forall m :: i < m < n ==> cls[m].kind != NameLine
    requires forall m :: j < m < n ==> cls[m].kind != PhoneLine
    ensures TextFold(cls, n).current.Some?
    ensures TextFold(cls, n).current.value.phone == cls[j].text
  {
    TextContactOpen(cls, n, i);
    if n - 1 > j {
      TextLastPhoneWins(cls, n - 1, i, j);
      assert cls[n - 1].kind != PhoneLine && cls[n - 1].kind != NameLine;
    } else {
      TextContactOpen(cls, n - 1, i);
    }
  }

  /** The open contact's email is the last email line read since its
      name line. */
  lemma {:induction false} TextLastEmailWins(cls: seq<TextLine>, n: nat, i: nat, j: nat)
    requires i < j < n <= |cls|
    requires cls[i].kind == NameLine && cls[j].kind == EmailLine
    requires forall m :: i < m < n ==> cls[m].kind != NameLine
    requires forall m :: j < m < n ==> cls[m].kind != EmailLine
    ensures TextFold(cls, n).current.Some?
    ensures TextFold(cls, n).current.value.email == cls[j].text
  {
    TextContactOpen(cls, n, i);
    if n - 1 > j {
      TextLastEmailWins(cls, n - 1, i, j);
      assert cls[n - 1].kind != EmailLine && cls[n - 1].kind != NameLine;
    } else {
      TextContactOpen(cls, n - 1, i);
    }
  }
}
