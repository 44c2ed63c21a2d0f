/**
 * The end of `parseContactsFromHTML`: the rule choosing which strategy
 * results are used, de-duplication by (lower-case name, phone) keeping
 * the first contact of each pair, and dropping contacts without a name.
 */
module ContactPipeline {
  import opened Wrappers
  import opened Strings
  import opened Sequences
  import opened Contacts
  import opened ContactParser
  import opened FallbackStrategies

  /** The primary strategy's result when it found anything; otherwise the
      results of the vCard, table, attribute-tagged and free-text
      strategies, concatenated in this order. */
  function Candidates(instagram: seq<Contact>, vcard: seq<Contact>, table: seq<Contact>,
                      div: seq<Contact>, text: seq<Contact>): seq<Contact> {
    if |instagram| > 0 then instagram else vcard + table + div + text
  }

  /** What two contacts must share to count as duplicates. */
  function KeyOf(c: Contact): (string, string) {
    (ToLower(c.name), c.phone)
  }

  /** `self.findIndex((c) => ...)`: the first index whose contact has key
      `key`, or -1. */
  function FindIndex(s: seq<Contact>, key: (string, string)): (r: int)
    ensures -1 <= r < |s|
  {
    if s == [] then -1
    else if KeyOf(s[0]) == key then 0
    else
      var r := FindIndex(s[1..], key);
      if r == -1 then -1 else r + 1
  }

  /** `findIndex` finds the first match, and -1 means there is none. */
  lemma {:induction false} FindIndexFirst(s: seq<Contact>, key: (string, string))
    ensures var r := FindIndex(s, key);
      && (r >= 0 ==> KeyOf(s[r]) == key && forall j :: 0 <= j < r ==> KeyOf(s[j]) != key)
      && (r == -1 ==> forall j :: 0 <= j < |s| ==> KeyOf(s[j]) != key)
  {
    if s != [] && KeyOf(s[0]) != key {
      FindIndexFirst(s[1..], key);
    }
  }

  /** The `filter` keeping `contact` at `index` when
      `index === self.findIndex(...)`, over the first `n` elements. */
  function KeepFirst(s: seq<Contact>, n: nat): seq<Contact>
    requires n <= |s|
  {
    if n == 0 then []
    else KeepFirst(s, n - 1) + (if FindIndex(s, KeyOf(s[n - 1])) == n - 1 then [s[n - 1]] else [])
  }

  function Unique(s: seq<Contact>): seq<Contact> {
    KeepFirst(s, |s|)
  }

  /** `(c) => c.name` */
  predicate HasName(c: Contact) {
    c.name != ""
  }

  /** The list `parseContactsFromHTML` returns for the given candidates. */
  function FinalContacts(candidates: seq<Contact>): seq<Contact> {
    Filter(Unique(candidates), HasName)
  }

  /** The result with the contact-tagged elements read as intended. */
  function ContactsFromHTML(doc: Document): seq<Contact> {
    FinalContacts(Candidates(
      InstagramContacts(doc.tables), VCardContacts(doc.html), TableContacts(doc.tables),
      DivContacts(doc.contactElements), TextContacts(doc.bodyText)))
  }

  /** The result as written: None when the extractor for contact-tagged
      elements throws, which aborts the whole parse. */
  function ContactsFromHTMLAsWritten(doc: Document): Option<seq<Contact>> {
    match DivContactsAsWritten(doc.contactElements)
    case None => None
    case Some(divContacts) =>
      Some(FinalContacts(Candidates(
        InstagramContacts(doc.tables), VCardContacts(doc.html), TableContacts(doc.tables),
        divContacts, TextContacts(doc.bodyText))))
  }

  /** No two contacts share the key. */
  predicate DistinctKeys(s: seq<Contact>) {
    forall i, j :: 0 <= i < j < |s| ==> KeyOf(s[i]) != KeyOf(s[j])
  }

  /** `parseContactsFromHTML` on a parsed document. */
  method ParseContactsFromHTML(doc: Document) returns (contacts: seq<Contact>)
    ensures contacts == ContactsFromHTML(doc)
    ensures forall c :: c in contacts ==> c.name != ""
    ensures DistinctKeys(contacts)
  {
    var instagramContacts := ParseInstagramFormat(doc.tables);
    var vCardContacts := ParseVCardFromHTML(doc.html);
    var tableContacts := ParseTableContacts(doc.tables);
    var divContacts := ParseDivContacts(doc.contactElements);
    var textContacts := ParseTextContacts(doc.bodyText);
    var allContacts := if |instagramContacts| > 0 then instagramContacts
      else vCardContacts + tableContacts + divContacts + textContacts;
    contacts := Filter(Unique(allContacts), HasName);
    FinalNamed(allContacts);
    FinalDistinct(allContacts);
  }

  // Properties of the de-duplication

  lemma DistinctKeysAppend(a: seq<Contact>, x: Contact)
    requires DistinctKeys(a) && forall y :: y in a ==> KeyOf(y) != KeyOf(x)
    ensures DistinctKeys(a + [x])
  {
    var s := a + [x];
    forall i, j | 0 <= i < j < |s|
      ensures KeyOf(s[i]) != KeyOf(s[j])
    {
      if j == |a| {
        assert s[i] == a[i] && a[i] in a;
      } else {
        assert s[i] == a[i] && s[j] == a[j];
      }
    }
  }

  /** Every kept contact is the first one with its key. */
  lemma {:induction false} KeepFirstIsFirst(s: seq<Contact>, n: nat)
    requires n <= |s|
    ensures forall y :: y in KeepFirst(s, n) ==>
      0 <= FindIndex(s, KeyOf(y)) < n && s[FindIndex(s, KeyOf(y))] == y
  {
    if n > 0 {
      KeepFirstIsFirst(s, n - 1);
      var prev := KeepFirst(s, n - 1);
      assert forall y :: y in KeepFirst(s, n) ==> y in prev || y == s[n - 1];
    }
  }

  /** No two kept contacts share a key. */
  lemma {:induction false} KeepFirstDistinct(s: seq<Contact>, n: nat)
    requires n <= |s|
    ensures DistinctKeys(KeepFirst(s, n))
  {
    if n > 0 {
      KeepFirstDistinct(s, n - 1);
      var prev, x := KeepFirst(s, n - 1), s[n - 1];
      if FindIndex(s, KeyOf(x)) == n - 1 {
        KeepFirstIsFirst(s, n - 1);
        DistinctKeysAppend(prev, x);
      }
    }
  }

  /** The first contact of each key is kept. */
  lemma {:induction false} KeepFirstComplete(s: seq<Contact>, n: nat)
    requires n <= |s|
    ensures forall m :: 0 <= m < n && FindIndex(s, KeyOf(s[m])) == m ==> s[m] in KeepFirst(s, n)
  {
    if n > 0 {
      KeepFirstComplete(s, n - 1);
    }
  }

  /** The kept contacts keep their order. */
  lemma {:induction false} KeepFirstSubsequence(s: seq<Contact>, n: nat)
    requires n <= |s|
    ensures IsSubsequence(KeepFirst(s, n), s[..n])
  {
    if n > 0 {
      KeepFirstSubsequence(s, n - 1);
      var r := KeepFirst(s, n);
      assert s[..n][..n - 1] == s[..n - 1];
      if FindIndex(s, KeyOf(s[n - 1])) == n - 1 {
        assert r[..|r| - 1] == KeepFirst(s, n - 1) && r[|r| - 1] == s[..n][n - 1];
      } else {
        assert r == KeepFirst(s, n - 1);
      }
    }
  }

  /** Filtering keeps distinct keys distinct. */
  lemma {:induction false} FilterDistinct(s: seq<Contact>, p: Contact -> bool)
    requires DistinctKeys(s)
    ensures DistinctKeys(Filter(s, p))
  {
    if s != [] {
      var init, last := s[..|s| - 1], s[|s| - 1];
      assert DistinctKeys(init);
      FilterDistinct(init, p);
      if p(last) {
        FilterMembers(init, p);
        forall y | y in Filter(init, p)
          ensures KeyOf(y) != KeyOf(last)
        {
          var i :| 0 <= i < |init| && init[i] == y;
          assert s[i] == y;
        }
        DistinctKeysAppend(Filter(init, p), last);
      }
    }
  }

  /** Equal keys mean equal name lengths, so both names are empty or neither. */
  lemma SameKeySameNamedness(a: Contact, b: Contact)
    requires KeyOf(a) == KeyOf(b)
    ensures HasName(a) <==> HasName(b)
  {
    assert |ToLower(a.name)| == |a.name|;
  }

  /** Every returned contact has a name. */
  lemma FinalNamed(candidates: seq<Contact>)
    ensures forall c :: c in FinalContacts(candidates) ==> c.name != ""
  {
    FilterMembers(Unique(candidates), HasName);
  }

  /** No two returned contacts share (lower-case name, phone). */
  lemma FinalDistinct(candidates: seq<Contact>)
    ensures DistinctKeys(FinalContacts(candidates))
  {
    KeepFirstDistinct(candidates, |candidates|);
    FilterDistinct(Unique(candidates), HasName);
  }

  /** The returned contacts are candidates, in their order. */
  lemma FinalSubsequence(candidates: seq<Contact>)
    ensures IsSubsequence(FinalContacts(candidates), candidates)
  {
    KeepFirstSubsequence(candidates, |candidates|);
    assert candidates[..|candidates|] == candidates;
    FilterSubsequence(Unique(candidates), HasName);
    SubsequenceTrans(FinalContacts(candidates), Unique(candidates), candidates);
  }

  /** Every returned contact is the first candidate with its key, and
      every named candidate has its first same-key candidate returned. */
  lemma FinalFirstPerKey(candidates: seq<Contact>)
    ensures forall y :: y in FinalContacts(candidates) ==>
      0 <= FindIndex(candidates, KeyOf(y)) && candidates[FindIndex(candidates, KeyOf(y))] == y
    ensures forall i :: 0 <= i < |candidates| && candidates[i].name != "" ==>
      0 <= FindIndex(candidates, KeyOf(candidates[i])) <= i
      && candidates[FindIndex(candidates, KeyOf(candidates[i]))] in FinalContacts(candidates)
  {
    var u := Unique(candidates);
    KeepFirstIsFirst(candidates, |candidates|);
    KeepFirstComplete(candidates, |candidates|);
    FilterMembers(u, HasName);
    forall i | 0 <= i < |candidates| && candidates[i].name != ""
      ensures 0 <= FindIndex(candidates, KeyOf(candidates[i])) <= i
      ensures candidates[FindIndex(candidates, KeyOf(candidates[i]))] in FinalContacts(candidates)
    {
      var key := KeyOf(candidates[i]);
      FindIndexFirst(candidates, key);
      var m := FindIndex(candidates, key);
      FindIndexFirst(candidates, KeyOf(candidates[m]));
      SameKeySameNamedness(candidates[m], candidates[i]);
    }
  }

  /** Where the returned contacts come from: the primary strategy alone
      when it found anything, otherwise the other four. */
  lemma ContactsFromHTMLSources(doc: Document)
    ensures var insta := InstagramContacts(doc.tables);
      forall c :: c in ContactsFromHTML(doc) ==>
        if |insta| > 0 then c in insta
        else c in VCardContacts(doc.html) || c in TableContacts(doc.tables)
             || c in DivContacts(doc.contactElements) || c in TextContacts(doc.bodyText)
  {
    var cands := Candidates(InstagramContacts(doc.tables), VCardContacts(doc.html),
      TableContacts(doc.tables), DivContacts(doc.contactElements), TextContacts(doc.bodyText));
    FinalSubsequence(cands);
    SubsequenceMembers(FinalContacts(cands), cands);
  }

  // The extractor for contact-tagged elements as written

  /** As written, one contact-tagged element is enough to abort the parse,
      even when the primary strategy found contacts that the intended
      reading returns. */
  lemma DivSelectorThrows(doc: Document)
    requires doc.contactElements != [] && |InstagramContacts(doc.tables)| > 0
    ensures ContactsFromHTMLAsWritten(doc).None?
    ensures ContactsFromHTML(doc) == FinalContacts(InstagramContacts(doc.tables))
  {
  }

  /** A document without contact-tagged elements parses the same either way. */
  lemma AsWrittenWithoutElements(doc: Document)
    requires doc.contactElements == []
    ensures ContactsFromHTMLAsWritten(doc) == Some(ContactsFromHTML(doc))
  {
    assert DivContacts(doc.contactElements) == [];
  }
}
