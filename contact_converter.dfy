/**
 * `src/utils/contactConverter.js`: the CSV and vCard serialisers.
 *
 * The CSV text uses the quoting of section 2 of RFC 4180 (every field is
 * quoted, a quote inside a field is doubled), but ends its lines with LF
 * instead of CRLF and puts a byte order mark before the header. `ReadCsv`
 * reads exactly this format, and `CsvRoundTrip` proves the fields come
 * back. The vCard text has the FN, N, TEL, EMAIL and ADR properties of
 * RFC 2426, ends its lines with LF instead of CRLF, and escapes no value.
 */
module ContactConverter {
  import opened Wrappers
  import opened Strings
  import opened Sequences
  import opened Contacts

  // ---------------------------------------------------------------------
  // convertToCSV
  // ---------------------------------------------------------------------

  const Header := "Name,Phone,Email,Address"

  /** The byte order mark put in front of a non-empty export. */
  const Bom: char := '\U{FEFF}'

  /** `value.replace(/"/g, '""')` */
  function DoubleQuotes(s: string): string {
    if s == [] then [] else (if s[0] == '"' then "\"\"" else [s[0]]) + DoubleQuotes(s[1..])
  }

  /** `"${value.replace(/"/g, '""')}"` */
  function Quote(s: string): string {
    "\"" + DoubleQuotes(s) + "\""
  }

  /** Each value wrapped by `Quote`, in order. */
  function QuoteAll(fs: seq<string>): (r: seq<string>)
    ensures |r| == |fs|
    ensures forall i :: 0 <= i < |fs| ==> r[i] == Quote(fs[i])
  {
    if fs == [] then [] else [Quote(fs[0])] + QuoteAll(fs[1..])
  }

  /** The fields of one CSV record. */
  function Fields(c: Contact): seq<string> {
    [c.name, c.phone, c.email, c.address]
  }

  /** `row.join(',')` for the row of a contact. */
  function CsvRecord(c: Contact): string {
    Join(QuoteAll(Fields(c)), ",")
  }

  /** `contacts.map(...)` to records, in order. */
  function Records(cs: seq<Contact>): (r: seq<string>)
    ensures |r| == |cs|
    ensures forall i :: 0 <= i < |cs| ==> r[i] == CsvRecord(cs[i])
  {
    if cs == [] then [] else [CsvRecord(cs[0])] + Records(cs[1..])
  }

  /** `convertToCSV`; `None` stands for a missing list. */
  function ConvertToCSV(contacts: Option<seq<Contact>>): (csv: string)
    ensures |csv| > 0 && (csv[0] == Bom <==> contacts.Some? && |contacts.value| > 0)
    ensures contacts.None? || |contacts.value| == 0 ==> csv == "Name,Phone,Email,Address\n"
  {
    if contacts.None? || |contacts.value| == 0 then Header + "\n"
    else [Bom] + Join([Header] + Records(contacts.value), "\n")
  }

  // A reader of exactly the exported format: the byte order mark, the
  // header, LF-separated records and quoted fields only

  /** Reads the inside of a quoted field, where `""` stands for `"`, up to
      its closing quote: the value and the text after the closing quote. */
  function ReadQuoted(s: string): (r: Option<(string, string)>)
    ensures r.Some? ==> |r.value.1| < |s|
  {
    if s == [] then None
    else if s[0] == '"' then
      if |s| >= 2 && s[1] == '"' then
        match ReadQuoted(s[2..])
        case None => None
        case Some(vr) => Some(("\"" + vr.0, vr.1))
      else Some(("", s[1..]))
    else
      match ReadQuoted(s[1..])
      case None => None
      case Some(vr) => Some(([s[0]] + vr.0, vr.1))
  }

  /** Reads one quoted field. */
  function ReadField(s: string): (r: Option<(string, string)>)
    ensures r.Some? ==> |r.value.1| < |s|
  {
    if s != [] && s[0] == '"' then ReadQuoted(s[1..]) else None
  }

  /** Reads the fields of one record: quoted fields separated by commas. */
  function ReadFields(s: string): (r: Option<(seq<string>, string)>)
    decreases |s|
    ensures r.Some? ==> |r.value.1| < |s|
  {
    match ReadField(s)
    case None => None
    case Some(vr) =>
      if vr.1 != [] && vr.1[0] == ',' then
        match ReadFields(vr.1[1..])
        case None => None
        case Some(fr) => Some(([vr.0] + fr.0, fr.1))
      else Some(([vr.0], vr.1))
  }

  /** Reads one record of four fields as a contact. */
  function ReadRecord(s: string): (r: Option<(Contact, string)>)
    ensures r.Some? ==> |r.value.1| < |s|
  {
    match ReadFields(s)
    case None => None
    case Some(fr) =>
      if |fr.0| == 4 then Some((Contact(fr.0[0], fr.0[1], fr.0[2], fr.0[3]), fr.1)) else None
  }

  /** Reads records separated by line feeds, up to the end of the text. */
  function ReadRecords(s: string): Option<seq<Contact>>
    decreases |s|
  {
    match ReadRecord(s)
    case None => None
    case Some(cr) =>
      if cr.1 == [] then Some([cr.0])
      else if cr.1[0] == '\n' then
        match ReadRecords(cr.1[1..])
        case None => None
        case Some(cs) => Some([cr.0] + cs)
      else None
  }

  /** Reads an export: the bare header line, or the mark, the header and
      at least one record. */
  function ReadCsv(s: string): Option<seq<Contact>> {
    if s == Header + "\n" then Some([])
    else if |s| >= |Header| + 2 && s[..|Header| + 2] == [Bom] + Header + "\n" then ReadRecords(s[|Header| + 2..])
    else None
  }

  /** Undoing the doubling: a doubled value followed by the closing quote
      reads back as the value, whatever follows that is not a quote. */
  lemma {:induction false} ReadQuotedDoubled(x: string, rest: string)
    requires rest == [] || rest[0] != '"'
    ensures ReadQuoted(DoubleQuotes(x) + "\"" + rest) == Some((x, rest))
  {
    var s := DoubleQuotes(x) + "\"" + rest;
    if x == [] {
      assert s == "\"" + rest;
      assert s[1..] == rest;
    } else {
      var t := DoubleQuotes(x[1..]) + "\"" + rest;
      ReadQuotedDoubled(x[1..], rest);
      if x[0] == '"' {
        assert s == "\"\"" + t;
        assert s[2..] == t;
      } else {
        assert s == [x[0]] + t;
        assert s[1..] == t;
      }
      assert x == [x[0]] + x[1..];
    }
  }

  /** A quoted field reads back as its value. */
  lemma ReadFieldQuote(x: string, rest: string)
    requires rest == [] || rest[0] != '"'
    ensures ReadField(Quote(x) + rest) == Some((x, rest))
  {
    var s := Quote(x) + rest;
    assert s[1..] == DoubleQuotes(x) + "\"" + rest;
    ReadQuotedDoubled(x, rest);
  }

  /** A field followed by a comma, then fields: one more field in front. */
  lemma ReadFieldsStep(s: string, x: string, tail: string, fs: seq<string>, rest: string)
    requires ReadField(s) == Some((x, "," + tail)) && ReadFields(tail) == Some((fs, rest))
    ensures ReadFields(s) == Some(([x] + fs, rest))
  {
    assert ("," + tail)[1..] == tail;
  }

  /** One more quoted field in front of joined fields reads as one more field. */
  lemma ReadFieldsCons(x: string, qs: seq<string>, rest: string, fs: seq<string>)
    requires |qs| >= 1 && ReadFields(Join(qs, ",") + rest) == Some((fs, rest))
    ensures ReadFields(Join([Quote(x)] + qs, ",") + rest) == Some(([x] + fs, rest))
  {
    var tail := Join(qs, ",") + rest;
    JoinCons(Quote(x), qs, ",", rest);
    ReadFieldQuote(x, "," + tail);
    ReadFieldsStep(Join([Quote(x)] + qs, ",") + rest, x, tail, fs, rest);
  }

  /** Quoted fields joined by commas read back as the fields. */
  lemma {:induction false} ReadFieldsJoin(fs: seq<string>, rest: string)
    requires |fs| >= 1 && (rest == [] || (rest[0] != '"' && rest[0] != ','))
    ensures ReadFields(Join(QuoteAll(fs), ",") + rest) == Some((fs, rest))
  {
    assert QuoteAll(fs) == [Quote(fs[0])] + QuoteAll(fs[1..]);
    if |fs| == 1 {
      assert Join(QuoteAll(fs), ",") == Quote(fs[0]);
      ReadFieldQuote(fs[0], rest);
      assert fs == [fs[0]];
    } else {
      ReadFieldsJoin(fs[1..], rest);
      ReadFieldsCons(fs[0], QuoteAll(fs[1..]), rest, fs[1..]);
      assert fs == [fs[0]] + fs[1..];
    }
  }

  /** A record reads back as its contact. */
  lemma ReadRecordCsv(c: Contact, rest: string)
    requires rest == [] || rest[0] == '\n'
    ensures ReadRecord(CsvRecord(c) + rest) == Some((c, rest))
  {
    ReadFieldsJoin(Fields(c), rest);
  }

  /** A record followed by a line feed reads as its contact, then the
      records after the line feed. */
  lemma ReadRecordsStep(c: Contact, tail: string, cs: seq<Contact>)
    requires ReadRecords(tail) == Some(cs)
    ensures ReadRecords(CsvRecord(c) + ("\n" + tail)) == Some([c] + cs)
  {
    ReadRecordCsv(c, "\n" + tail);
    assert ("\n" + tail)[1..] == tail;
  }

  /** A record alone reads as its contact. */
  lemma ReadRecordsLast(c: Contact)
    ensures ReadRecords(CsvRecord(c)) == Some([c])
  {
    ReadRecordCsv(c, []);
    assert CsvRecord(c) + [] == CsvRecord(c);
  }

  /** One more record in front of joined records reads as one more contact. */
  lemma ReadRecordsCons(c: Contact, rs: seq<string>, cs: seq<Contact>)
    requires |rs| >= 1 && ReadRecords(Join(rs, "\n")) == Some(cs)
    ensures ReadRecords(Join([CsvRecord(c)] + rs, "\n")) == Some([c] + cs)
  {
    JoinFirst([CsvRecord(c)] + rs, "\n");
    assert ([CsvRecord(c)] + rs)[1..] == rs;
    ReadRecordsStep(c, Join(rs, "\n"), cs);
  }

  /** Records joined by line feeds read back as the contacts. */
  lemma {:induction false} ReadRecordsJoin(cs: seq<Contact>)
    requires |cs| >= 1
    ensures ReadRecords(Join(Records(cs), "\n")) == Some(cs)
  {
    assert Records(cs) == [CsvRecord(cs[0])] + Records(cs[1..]);
    if |cs| == 1 {
      ReadRecordsLast(cs[0]);
      assert cs == [cs[0]];
    } else {
      ReadRecordsJoin(cs[1..]);
      ReadRecordsCons(cs[0], Records(cs[1..]), cs[1..]);
      assert cs == [cs[0]] + cs[1..];
    }
  }

  /** Reading an export gives back the contacts, in order, every field
      intact whatever quotes, commas or line feeds it holds; a missing
      list reads back as an empty one. */
  lemma CsvRoundTrip(contacts: Option<seq<Contact>>)
    ensures ReadCsv(ConvertToCSV(contacts)) == Some(if contacts.None? then [] else contacts.value)
  {
    if contacts.Some? && |contacts.value| > 0 {
      var rs := Records(contacts.value);
      var body, pre := Join(rs, "\n"), [Bom] + Header + "\n";
      JoinFirst([Header] + rs, "\n");
      assert ([Header] + rs)[1..] == rs;
      var s := ConvertToCSV(contacts);
      assert s == pre + body;
      assert |pre| == |Header| + 2 && s[..|pre|] == pre && s[|pre|..] == body;
      assert s != Header + "\n" by {
        assert s[0] == Bom != Header[0];
      }
      ReadRecordsJoin(contacts.value);
    }
  }

  // ---------------------------------------------------------------------
  // convertToVCard
  // ---------------------------------------------------------------------

  const TelPrefix := "TEL;TYPE=VOICE:"
  const EmailPrefix := "EMAIL;TYPE=INTERNET:"
  const AdrPrefix := "ADR;TYPE=HOME:;;"

  /** `name.split(' ').reverse().join(';')` */
  function NValue(name: string): string {
    Join(Reverse(Split(name, ' ')), ";")
  }

  /** The lines the `if` statements push, in order. */
  function OptionalLines(c: Contact): seq<string> {
    (if c.phone != "" then [TelPrefix + c.phone] else [])
    + (if c.email != "" then [EmailPrefix + c.email] else [])
    + (if c.address != "" then [AdrPrefix + c.address + ";;"] else [])
  }

  /** The array `lines` for contact `c` with N value `n`. */
  function CardLines(c: Contact, n: string): seq<string> {
    ["BEGIN:VCARD", "VERSION:3.0", "FN:" + c.name, "N:" + n] + OptionalLines(c) + ["END:VCARD"]
  }

  /** The array `lines` of one contact. */
  function VCardLines(c: Contact): seq<string> {
    CardLines(c, NValue(c.name))
  }

  /** `contacts.map(...)`, each contact to its lines, in order. */
  function CardsLines(cs: seq<Contact>): (r: seq<seq<string>>)
    ensures |r| == |cs|
    ensures forall k :: 0 <= k < |cs| ==> r[k] == VCardLines(cs[k])
  {
    if cs == [] then [] else [VCardLines(cs[0])] + CardsLines(cs[1..])
  }

  /** Each block of lines joined by line feeds (`lines.join('\n')`). */
  function JoinEach(blocks: seq<seq<string>>): (r: seq<string>)
    ensures |r| == |blocks|
  {
    if blocks == [] then [] else [Join(blocks[0], "\n")] + JoinEach(blocks[1..])
  }

  /** `convertToVCard` */
  function ConvertToVCard(contacts: seq<Contact>): (vCards: string)
    ensures vCards == "" <==> contacts == []
  {
    Join(JoinEach(CardsLines(contacts)), "\n\n")
  }

  /** The blocks' lines with an empty line between two blocks. */
  function Spaced(blocks: seq<seq<string>>): seq<string>
    requires |blocks| >= 1
  {
    if |blocks| == 1 then blocks[0] else blocks[0] + [""] + Spaced(blocks[1..])
  }

  /** The lines of the whole export: each card's lines, with an empty
      line between two cards. */
  function DocumentLines(cs: seq<Contact>): seq<string>
    requires |cs| >= 1
  {
    Spaced(CardsLines(cs))
  }

  /** Blocks joined by an empty line are their lines joined by line feeds. */
  lemma {:induction false} JoinSpaced(blocks: seq<seq<string>>)
    requires |blocks| >= 1 && forall k :: 0 <= k < |blocks| ==> |blocks[k]| >= 1
    ensures Join(JoinEach(blocks), "\n\n") == Join(Spaced(blocks), "\n")
  {
    var t := JoinEach(blocks);
    assert t[0] == Join(blocks[0], "\n");
    if |blocks| > 1 {
      JoinSpaced(blocks[1..]);
      assert t[1..] == JoinEach(blocks[1..]);
      var a, rest := blocks[0], Spaced(blocks[1..]);
      assert Join(t, "\n\n") == Join(a, "\n") + "\n\n" + Join(rest, "\n");
      assert Spaced(blocks) == a + ([""] + rest);
      JoinAppend(a, [""] + rest, "\n");
      JoinAppend([""], rest, "\n");
      assert "\n\n" == "\n" + "" + "\n";
    }
  }

  /** The export is the document's lines joined by line feeds. */
  lemma VCardDocumentJoin(cs: seq<Contact>)
    requires |cs| >= 1
    ensures ConvertToVCard(cs) == Join(DocumentLines(cs), "\n")
  {
    JoinSpaced(CardsLines(cs));
  }

  /** No field of `c` holds a line feed. */
  predicate SingleLine(c: Contact) {
    '\n' !in c.name && '\n' !in c.phone && '\n' !in c.email && '\n' !in c.address
  }

  /** No line of a card holds a line feed when neither a field nor the N value does. */
  lemma CardLinesFree(c: Contact, n: string)
    requires SingleLine(c) && '\n' !in n
    ensures forall l :: l in CardLines(c, n) ==> '\n' !in l
  {
    var fixed := ["BEGIN:VCARD", "VERSION:3.0", "FN:" + c.name, "N:" + n];
    var o := OptionalLines(c);
    assert CardLines(c, n) == fixed + o + ["END:VCARD"];
    forall l | l in o
      ensures '\n' !in l
    {
    }
  }

  /** The N value holds only characters of the name and ';'. */
  lemma NValueChars(name: string)
    ensures forall ch :: ch in NValue(name) ==> ch in name || ch == ';'
  {
    var pieces := Split(name, ' ');
    SplitPieceChars(name, ' ');
    ReverseMembers(pieces);
    JoinChars(Reverse(pieces), ";");
  }

  /** The lines of the blocks, and empty lines, are the document's lines. */
  lemma {:induction false} SpacedMembers(blocks: seq<seq<string>>, l: string)
    requires |blocks| >= 1
    ensures l in Spaced(blocks) ==> l == "" || exists k :: 0 <= k < |blocks| && l in blocks[k]
  {
    if |blocks| > 1 {
      SpacedMembers(blocks[1..], l);
      if l in Spaced(blocks[1..]) && l != "" {
        var k :| 0 <= k < |blocks| - 1 && l in blocks[1..][k];
        assert l in blocks[k + 1];
      }
    }
  }

  /** Splitting the export at line feeds gives back each card's lines,
      with an empty line between cards, when no field holds a line feed. */
  lemma VCardExportLines(cs: seq<Contact>)
    requires |cs| >= 1
    requires forall c :: c in cs ==> SingleLine(c)
    ensures Split(ConvertToVCard(cs), '\n') == DocumentLines(cs)
  {
    VCardDocumentJoin(cs);
    var blocks := CardsLines(cs);
    forall l | l in DocumentLines(cs)
      ensures '\n' !in l
    {
      SpacedMembers(blocks, l);
      if l != "" {
        var k :| 0 <= k < |blocks| && l in blocks[k];
        assert cs[k] in cs;
        NValueChars(cs[k].name);
        CardLinesFree(cs[k], NValue(cs[k].name));
      }
    }
    assert "\n" == ['\n'];
    SplitJoin(DocumentLines(cs), '\n');
  }

  /** The N value read back: splitting it at ';', reversing and joining
      with spaces gives the name, when the name holds no ';'. */
  lemma NValueRoundTrip(name: string)
    requires ';' !in name
    ensures Join(Reverse(Split(NValue(name), ';')), " ") == name
  {
    var pieces := Split(name, ' ');
    var rev := Reverse(pieces);
    SplitPieceChars(name, ' ');
    ReverseMembers(pieces);
    assert forall p :: p in rev ==> ';' !in p;
    assert ";" == [';'];
    SplitJoin(rev, ';');
    ReverseReverse(pieces);
    assert " " == [' '];
    JoinSplit(name, ' ');
  }

  /** A line that starts unlike every fixed line is a line of a card
      exactly when it is one of its optional lines. */
  lemma OptionalMembership(c: Contact, n: string, l: string)
    requires |l| >= 2 && l[0] !in "BVFN" && l[..2] != "EN"
    ensures l in CardLines(c, n) <==> l in OptionalLines(c)
  {
    var fixed := ["BEGIN:VCARD", "VERSION:3.0", "FN:" + c.name, "N:" + n];
    assert CardLines(c, n) == fixed + OptionalLines(c) + ["END:VCARD"];
    assert ("FN:" + c.name)[0] == 'F' && ("N:" + n)[0] == 'N';
    assert l !in fixed;
    assert l != "END:VCARD" by {
      assert "END:VCARD"[..2] == "EN";
    }
  }

  /** A card has its fixed lines first and last; a TEL line, when there
      is one, comes right after them, and an ADR line right before the end. */
  lemma VCardLinesShape(c: Contact)
    ensures var ls := VCardLines(c);
      && |ls| >= 5 && ls[0] == "BEGIN:VCARD" && ls[1] == "VERSION:3.0"
      && ls[2] == "FN:" + c.name && ls[3] == "N:" + NValue(c.name) && ls[|ls| - 1] == "END:VCARD"
      && (c.phone != "" ==> ls[4] == TelPrefix + c.phone)
      && (c.address != "" ==> ls[|ls| - 2] == AdrPrefix + c.address + ";;")
  {
  }

  /** A card has a TEL, EMAIL or ADR line exactly when that field is non-empty. */
  lemma VCardPropertyLines(c: Contact)
    ensures var ls := VCardLines(c);
      && (TelPrefix + c.phone in ls <==> c.phone != "")
      && (EmailPrefix + c.email in ls <==> c.email != "")
      && (AdrPrefix + c.address + ";;" in ls <==> c.address != "")
  {
    var n := NValue(c.name);
    var tel, email, adr := TelPrefix + c.phone, EmailPrefix + c.email, AdrPrefix + c.address + ";;";
    assert tel[0] == 'T' && email[0] == 'E' && email[..2] == "EM" && adr[0] == 'A';
    OptionalMembership(c, n, tel);
    OptionalMembership(c, n, email);
    OptionalMembership(c, n, adr);
  }
}
