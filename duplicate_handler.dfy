/**
 * `src/utils/duplicateHandler.js`: grouping contacts that share a trimmed
 * phone number, the selection of one name per shared phone, and the merge
 * that keeps the selected contacts.
 */
module DuplicateHandler {
  import opened Strings
  import opened Sequences
  import opened Contacts

  /** `{ ...contactList[i], originalIndex: i }` */
  datatype IndexedContact = IndexedContact(contact: Contact, originalIndex: nat)

  /** `{ phone, contacts }`: the contacts sharing one phone. */
  datatype Group = Group(phone: string, contacts: seq<IndexedContact>)

  /** `contact.phone?.trim()` */
  function PhoneOf(c: Contact): string {
    Trim(c.phone)
  }

  // ---------------------------------------------------------------------
  // The order of an object's own keys
  // ---------------------------------------------------------------------

  /** The value of a string of decimal digits. */
  function DigitsValue(s: string): nat
    requires forall i :: 0 <= i < |s| ==> IsDigit(s[i])
  {
    if s == [] then 0
    else
      assert IsDigit(s[|s| - 1]);
      DigitsValue(s[..|s| - 1]) * 10 + (s[|s| - 1] as int - '0' as int)
  }

  /** An array index: the canonical decimal form of an integer below
      2^32 - 1, which an object lists before its other string keys. */
  predicate IsArrayIndex(k: string) {
    && |k| >= 1
    && (forall i :: 0 <= i < |k| ==> IsDigit(k[i]))
    && (k[0] != '0' || |k| == 1)
    && DigitsValue(k) < 0xFFFF_FFFF
  }

  /** Places an array-index key among the leading array-index keys, in
      ascending numeric order. */
  function InsertIndexKey(keys: seq<string>, k: string): seq<string>
    requires IsArrayIndex(k)
  {
    if keys == [] || !IsArrayIndex(keys[0]) || DigitsValue(k) < DigitsValue(keys[0]) then [k] + keys
    else [keys[0]] + InsertIndexKey(keys[1..], k)
  }

  /** The own-key order after a new key is created: array indices in
      ascending numeric order, then the other keys in creation order. */
  function AddOwnKey(keys: seq<string>, k: string): seq<string> {
    if IsArrayIndex(k) then InsertIndexKey(keys, k) else keys + [k]
  }

  predicate NoDup(s: seq<string>) {
    forall i, j :: 0 <= i < j < |s| ==> s[i] != s[j]
  }

  lemma NoDupCons(a: string, t: seq<string>)
    requires a !in t && NoDup(t)
    ensures NoDup([a] + t)
  {
    var s := [a] + t;
    forall i, j | 0 <= i < j < |s|
      ensures s[i] != s[j]
    {
      assert s[j] == t[j - 1];
      if i > 0 {
        assert s[i] == t[i - 1];
      }
    }
  }

  lemma {:induction false} InsertIndexKeyMembers(keys: seq<string>, k: string)
    requires IsArrayIndex(k)
    ensures forall x :: x in InsertIndexKey(keys, k) <==> x in keys || x == k
    ensures NoDup(keys) && k !in keys ==> NoDup(InsertIndexKey(keys, k))
  {
    if !(keys == [] || !IsArrayIndex(keys[0]) || DigitsValue(k) < DigitsValue(keys[0])) {
      var t := keys[1..];
      assert keys == [keys[0]] + t;
      InsertIndexKeyMembers(t, k);
      if NoDup(keys) && k !in keys {
        assert NoDup(t) && keys[0] !in t;
        NoDupCons(keys[0], InsertIndexKey(t, k));
      }
    } else if NoDup(keys) && k !in keys {
      NoDupCons(k, keys);
    }
  }

  /** Creating a key adds exactly that key, and keeps the keys distinct. */
  lemma AddOwnKeyMembers(keys: seq<string>, k: string)
    ensures forall x :: x in AddOwnKey(keys, k) <==> x in keys || x == k
    ensures NoDup(keys) && k !in keys ==> NoDup(AddOwnKey(keys, k))
  {
    if IsArrayIndex(k) {
      InsertIndexKeyMembers(keys, k);
    }
  }

  // ---------------------------------------------------------------------
  // findDuplicates
  // ---------------------------------------------------------------------

  /** The trimmed phone of every contact. */
  function Phones(contactList: seq<Contact>): (phones: seq<string>)
    ensures |phones| == |contactList|
    ensures forall i :: 0 <= i < |contactList| ==> phones[i] == PhoneOf(contactList[i])
    ensures forall i :: 0 <= i < |contactList| ==> Trimmed(phones[i])
  {
    seq(|contactList|, i requires 0 <= i < |contactList| => PhoneOf(contactList[i]))
  }

  /** The object `phoneMap`: its entries, and its own keys in the order
      `Object.entries` lists them. */
  datatype PhoneMap = PhoneMap(entries: map<string, seq<nat>>, keys: seq<string>)

  /** The `forEach` callback on a contact with trimmed phone `phone` at
      `index`: a non-empty phone gets its index appended, the first time
      under a new key. */
  function RecordPhone(pm: PhoneMap, phone: string, index: nat): PhoneMap {
    if phone == "" then pm
    else if phone in pm.entries then PhoneMap(pm.entries[phone := pm.entries[phone] + [index]], pm.keys)
    else PhoneMap(pm.entries[phone := [index]], AddOwnKey(pm.keys, phone))
  }

  /** `phoneMap` after the `forEach` callback has run on the contacts
      with the first `n` of the trimmed phones `phones`. */
  function PhoneIndex(phones: seq<string>, n: nat): PhoneMap
    requires n <= |phones|
  {
    if n == 0 then PhoneMap(map[], []) else RecordPhone(PhoneIndex(phones, n - 1), phones[n - 1], n - 1)
  }

  /** The indices below `n` that hold `phone`, ascending. */
  function IndicesWith(phones: seq<string>, n: nat, phone: string): seq<nat>
    requires n <= |phones|
  {
    if n == 0 then []
    else IndicesWith(phones, n - 1, phone) + (if phones[n - 1] == phone then [n - 1] else [])
  }

  /** What an entry of `phoneMap` holds: there is one for each non-empty
      trimmed phone seen, listing the indices with that phone. */
  lemma {:induction false} PhoneIndexEntry(phones: seq<string>, n: nat, p: string)
    requires n <= |phones|
    ensures var e := PhoneIndex(phones, n).entries;
      && (p in e <==> p != "" && IndicesWith(phones, n, p) != [])
      && (p in e ==> e[p] == IndicesWith(phones, n, p))
  {
    if n > 0 {
      PhoneIndexEntry(phones, n - 1, p);
    }
  }

  /** The own keys of `phoneMap` name each entry exactly once. */
  predicate ListsKeys(entries: map<string, seq<nat>>, keys: seq<string>) {
    (forall p :: p in keys ==> p in entries) && (forall p :: p in entries ==> p in keys) && NoDup(keys)
  }

  lemma {:induction false} PhoneIndexKeys(phones: seq<string>, n: nat)
    requires n <= |phones|
    ensures ListsKeys(PhoneIndex(phones, n).entries, PhoneIndex(phones, n).keys)
  {
    if n > 0 {
      PhoneIndexKeys(phones, n - 1);
      var pm := PhoneIndex(phones, n - 1);
      var phone := phones[n - 1];
      if phone != "" && phone !in pm.entries {
        AddOwnKeyMembers(pm.keys, phone);
      }
    }
  }

  /** Every index `IndicesWith` lists is below `n` and holds the phone. */
  lemma {:induction false} IndicesWithBound(phones: seq<string>, n: nat, phone: string, j: nat)
    requires n <= |phones| && j < |IndicesWith(phones, n, phone)|
    ensures IndicesWith(phones, n, phone)[j] < n && phones[IndicesWith(phones, n, phone)[j]] == phone
  {
    var prev := IndicesWith(phones, n - 1, phone);
    if j < |prev| {
      IndicesWithBound(phones, n - 1, phone, j);
    }
  }

  /** `IndicesWith` lists the indices in increasing order. */
  lemma {:induction false} IndicesWithIncreasing(phones: seq<string>, n: nat, phone: string, j: nat, j': nat)
    requires n <= |phones| && j < j' < |IndicesWith(phones, n, phone)|
    ensures IndicesWith(phones, n, phone)[j] < IndicesWith(phones, n, phone)[j']
  {
    var prev := IndicesWith(phones, n - 1, phone);
    if j' < |prev| {
      IndicesWithIncreasing(phones, n - 1, phone, j, j');
    } else {
      IndicesWithBound(phones, n - 1, phone, j);
    }
  }

  /** An index is listed exactly when it holds `phone`. */
  lemma {:induction false} IndicesWithMembers(phones: seq<string>, n: nat, phone: string, i: nat)
    requires n <= |phones|
    ensures i in IndicesWith(phones, n, phone) <==> i < n && phones[i] == phone
  {
    if n > 0 {
      IndicesWithMembers(phones, n - 1, phone, i);
      var prev := IndicesWith(phones, n - 1, phone);
      var tail := if phones[n - 1] == phone then [n - 1] else [];
      assert IndicesWith(phones, n, phone) == prev + tail;
      assert i in prev + tail <==> i in prev || i in tail;
    }
  }

  /** `indices.map(i => ({ ...contactList[i], originalIndex: i }))`; an
      index past the end would spread `undefined`, leaving no field set
      (`IsGroupOf` shows it does not happen). */
  function Members(contactList: seq<Contact>, indices: seq<nat>): (ms: seq<IndexedContact>)
    ensures |ms| == |indices|
    ensures forall j :: 0 <= j < |indices| && indices[j] < |contactList| ==>
      ms[j] == IndexedContact(contactList[indices[j]], indices[j])
  {
    seq(|indices|, j requires 0 <= j < |indices| =>
      IndexedContact(if indices[j] < |contactList| then contactList[indices[j]] else Blank, indices[j]))
  }

  /** `Object.entries(phoneMap).filter(...).map(...)` over the keys `keys`
      (every key has an entry; see `PhoneIndexKeys`). */
  function EntryGroups(contactList: seq<Contact>, pm: PhoneMap, keys: seq<string>): seq<Group> {
    if keys == [] then [] else EntryGroup(contactList, pm, keys[0]) + EntryGroups(contactList, pm, keys[1..])
  }

  /** The group of the entry under key `k`, if it has more than one index. */
  function EntryGroup(contactList: seq<Contact>, pm: PhoneMap, k: string): (r: seq<Group>)
    ensures |r| <= 1 && forall g :: g in r ==> g.phone == k
  {
    var indices := if k in pm.entries then pm.entries[k] else [];
    if |indices| > 1 then [Group(k, Members(contactList, indices))] else []
  }

  /** The groups `findDuplicates` returns for `contactList`. */
  function DuplicateGroups(contactList: seq<Contact>): seq<Group> {
    var pm := PhoneIndex(Phones(contactList), |contactList|);
    EntryGroups(contactList, pm, pm.keys)
  }

  /** The body of the `forEach` callback. */
  method Record(phoneMap: map<string, seq<nat>>, keys: seq<string>, phone: string, index: nat)
    returns (phoneMap': map<string, seq<nat>>, keys': seq<string>)
    ensures PhoneMap(phoneMap', keys') == RecordPhone(PhoneMap(phoneMap, keys), phone, index)
  {
    phoneMap', keys' := phoneMap, keys;
    if phone != "" {
      var indices: seq<nat> := [];
      if phone in phoneMap {
        indices := phoneMap[phone];
      } else {
        keys' := AddOwnKey(keys, phone);
        assert indices + [index] == [index];
      }
      phoneMap' := phoneMap[phone := indices + [index]];
    }
  }

  /** The `forEach` loop of `findDuplicates`, building `phoneMap`. */
  method IndexPhones(contactList: seq<Contact>) returns (phoneMap: map<string, seq<nat>>, keys: seq<string>)
    ensures PhoneMap(phoneMap, keys) == PhoneIndex(Phones(contactList), |contactList|)
  {
    ghost var phones := Phones(contactList);
    phoneMap, keys := map[], [];
    for index := 0 to |contactList|
      invariant PhoneMap(phoneMap, keys) == PhoneIndex(phones, index)
    {
      phoneMap, keys := Record(phoneMap, keys, PhoneOf(contactList[index]), index);
    }
  }

  /** `findDuplicates` */
  method FindDuplicates(contactList: seq<Contact>) returns (duplicateGroups: seq<Group>)
    ensures duplicateGroups == DuplicateGroups(contactList)
  {
    var phoneMap, keys := IndexPhones(contactList);
    duplicateGroups := EntryGroups(contactList, PhoneMap(phoneMap, keys), keys);
  }

  // Properties of the grouping

  /** The original indices of a group's members. */
  function GroupIndices(g: Group): (ix: seq<nat>)
    ensures |ix| == |g.contacts|
    ensures forall j :: 0 <= j < |ix| ==> ix[j] == g.contacts[j].originalIndex
  {
    seq(|g.contacts|, j requires 0 <= j < |g.contacts| => g.contacts[j].originalIndex)
  }

  /** What a group of `contactList` is: a non-empty phone shared by at
      least two contacts, and as members exactly the contacts with that
      trimmed phone, each with its index, in index order. */
  predicate IsGroupOf(contactList: seq<Contact>, g: Group) {
    && g.phone != ""
    && GroupIndices(g) == IndicesWith(Phones(contactList), |contactList|, g.phone)
    && |g.contacts| >= 2
    && (forall j :: 0 <= j < |g.contacts| ==>
          g.contacts[j].originalIndex < |contactList|
          && g.contacts[j].contact == contactList[g.contacts[j].originalIndex])
  }

  /** The entries of `pm` are those of `phoneMap` for `phones`. */
  ghost predicate EntriesHold(phones: seq<string>, pm: PhoneMap) {
    forall p :: p in pm.entries ==> p != "" && pm.entries[p] == IndicesWith(phones, |phones|, p)
  }

  lemma PhoneIndexHolds(phones: seq<string>)
    ensures EntriesHold(phones, PhoneIndex(phones, |phones|))
  {
    forall p | p in PhoneIndex(phones, |phones|).entries
      ensures p != "" && PhoneIndex(phones, |phones|).entries[p] == IndicesWith(phones, |phones|, p)
    {
      PhoneIndexEntry(phones, |phones|, p);
    }
  }

  /** The group of one phone with at least two indices. */
  lemma GroupOfEntry(contactList: seq<Contact>, phone: string)
    requires phone != "" && |IndicesWith(Phones(contactList), |contactList|, phone)| > 1
    ensures var indices := IndicesWith(Phones(contactList), |contactList|, phone);
      IsGroupOf(contactList, Group(phone, Members(contactList, indices)))
  {
    var indices := IndicesWith(Phones(contactList), |contactList|, phone);
    var g := Group(phone, Members(contactList, indices));
    forall j | 0 <= j < |indices|
      ensures indices[j] < |contactList|
    {
      IndicesWithBound(Phones(contactList), |contactList|, phone, j);
    }
    assert GroupIndices(g) == indices;
  }

  lemma {:induction false} EntryGroupsSpec(contactList: seq<Contact>, pm: PhoneMap, keys: seq<string>)
    requires EntriesHold(Phones(contactList), pm)
    ensures forall g :: g in EntryGroups(contactList, pm, keys) ==> IsGroupOf(contactList, g) && g.phone in keys
    ensures forall k :: k in keys && k in pm.entries && |pm.entries[k]| >= 2 ==>
      exists g :: g in EntryGroups(contactList, pm, keys) && g.phone == k
  {
    if keys != [] {
      var k := keys[0];
      EntryGroupsSpec(contactList, pm, keys[1..]);
      if k in pm.entries && |pm.entries[k]| > 1 {
        GroupOfEntry(contactList, k);
        assert Group(k, Members(contactList, pm.entries[k])) in EntryGroups(contactList, pm, keys);
      }
    }
  }

  /** No two groups share a phone. */
  predicate DistinctPhones(gs: seq<Group>) {
    forall i, j :: 0 <= i < j < |gs| ==> gs[i].phone != gs[j].phone
  }

  /** Appending groups of other phones keeps the phones distinct. */
  lemma DistinctPhonesAppend(a: seq<Group>, b: seq<Group>, k: string)
    requires |a| <= 1 && (forall g :: g in a ==> g.phone == k) && (forall g :: g in b ==> g.phone != k)
    requires DistinctPhones(b)
    ensures DistinctPhones(a + b)
  {
    var s := a + b;
    forall i, j | 0 <= i < j < |s|
      ensures s[i].phone != s[j].phone
    {
      assert s[j] == b[j - |a|] && s[j] in b;
      if i >= |a| {
        assert s[i] == b[i - |a|];
      } else {
        assert s[i] in a;
      }
    }
  }

  lemma {:induction false} EntryGroupsDistinct(contactList: seq<Contact>, pm: PhoneMap, keys: seq<string>)
    requires NoDup(keys)
    ensures forall g :: g in EntryGroups(contactList, pm, keys) ==> g.phone in keys
    ensures DistinctPhones(EntryGroups(contactList, pm, keys))
  {
    if keys != [] {
      var t := keys[1..];
      assert NoDup(t) && keys[0] !in t;
      EntryGroupsDistinct(contactList, pm, t);
      var head, rest := EntryGroup(contactList, pm, keys[0]), EntryGroups(contactList, pm, t);
      DistinctPhonesAppend(head, rest, keys[0]);
    }
  }

  /** Every group has at least two members, all with its (non-empty)
      phone and with their own index, in index order; it lists every
      contact with that phone. */
  lemma DuplicateGroupsSound(contactList: seq<Contact>)
    ensures forall g :: g in DuplicateGroups(contactList) ==> IsGroupOf(contactList, g)
  {
    var pm := PhoneIndex(Phones(contactList), |contactList|);
    PhoneIndexHolds(Phones(contactList));
    EntryGroupsSpec(contactList, pm, pm.keys);
  }

  /** Every phone shared by two or more contacts has a group. */
  lemma DuplicateGroupsComplete(contactList: seq<Contact>, phone: string)
    requires phone != "" && |IndicesWith(Phones(contactList), |contactList|, phone)| >= 2
    ensures exists g :: g in DuplicateGroups(contactList) && g.phone == phone
  {
    var phones := Phones(contactList);
    var pm := PhoneIndex(phones, |contactList|);
    PhoneIndexEntry(phones, |contactList|, phone);
    PhoneIndexKeys(phones, |contactList|);
    PhoneIndexHolds(phones);
    assert phone in pm.keys;
    EntryGroupsSpec(contactList, pm, pm.keys);
  }

  /** No two groups `findDuplicates` returns share a phone. */
  lemma DuplicateGroupsDistinct(contactList: seq<Contact>)
    ensures DistinctPhones(DuplicateGroups(contactList))
  {
    var pm := PhoneIndex(Phones(contactList), |contactList|);
    PhoneIndexKeys(Phones(contactList), |contactList|);
    EntryGroupsDistinct(contactList, pm, pm.keys);
    assert DuplicateGroups(contactList) == EntryGroups(contactList, pm, pm.keys);
  }

  /** A contact belongs to a group exactly when its trimmed phone is the
      group's phone; the members come in list order. */
  lemma DuplicateGroupMembership(contactList: seq<Contact>, g: Group, i: nat, j: nat, j': nat)
    requires g in DuplicateGroups(contactList) && i < |contactList|
    ensures i in GroupIndices(g) <==> PhoneOf(contactList[i]) == g.phone
    ensures j < j' < |g.contacts| ==> g.contacts[j].originalIndex < g.contacts[j'].originalIndex
  {
    DuplicateGroupsSound(contactList);
    IndicesWithMembers(Phones(contactList), |contactList|, g.phone, i);
    if j < j' < |g.contacts| {
      IndicesWithIncreasing(Phones(contactList), |contactList|, g.phone, j, j');
    }
  }

  // ---------------------------------------------------------------------
  // mergeContacts and initializeMergeSelections
  // ---------------------------------------------------------------------

  /** Some group has this phone (`duplicates.find(d => d.phone === phone)`). */
  predicate HasGroup(duplicates: seq<Group>, phone: string) {
    exists g :: g in duplicates && g.phone == phone
  }

  /** The `filter` callback of `mergeContacts`: a contact without a phone,
      or whose phone has no group, is kept; otherwise it is kept only if
      its name is the one selected for the phone. */
  predicate Keep(duplicates: seq<Group>, mergeSelections: map<string, string>, contact: Contact) {
    var phone := PhoneOf(contact);
    if phone == "" then true
    else if !HasGroup(duplicates, phone) then true
    else phone in mergeSelections && contact.name == mergeSelections[phone]
  }

  /** `mergeContacts` */
  function MergeContacts(contacts: seq<Contact>, duplicates: seq<Group>, mergeSelections: map<string, string>): seq<Contact> {
    Filter(contacts, c => Keep(duplicates, mergeSelections, c))
  }

  /** The merge keeps contacts in their order and adds or changes none. */
  lemma MergeSubsequence(contacts: seq<Contact>, duplicates: seq<Group>, mergeSelections: map<string, string>)
    ensures IsSubsequence(MergeContacts(contacts, duplicates, mergeSelections), contacts)
  {
    FilterSubsequence(contacts, c => Keep(duplicates, mergeSelections, c));
  }

  /** Which contacts the merge keeps: those without a phone, those whose
      phone has no group, and those whose name is the selected one; a
      phone without a selection keeps none of its group. */
  lemma MergeMembers(contacts: seq<Contact>, duplicates: seq<Group>, mergeSelections: map<string, string>)
    ensures forall c :: c in MergeContacts(contacts, duplicates, mergeSelections) <==>
      c in contacts
      && (PhoneOf(c) == "" || !HasGroup(duplicates, PhoneOf(c))
          || (PhoneOf(c) in mergeSelections && c.name == mergeSelections[PhoneOf(c)]))
  {
    FilterMembers(contacts, c => Keep(duplicates, mergeSelections, c));
  }

  /** Merging an already merged list with the same groups and selections
      changes nothing. */
  lemma MergeIdempotent(contacts: seq<Contact>, duplicates: seq<Group>, mergeSelections: map<string, string>)
    ensures var merged := MergeContacts(contacts, duplicates, mergeSelections);
      MergeContacts(merged, duplicates, mergeSelections) == merged
  {
    FilterIdempotent(contacts, c => Keep(duplicates, mergeSelections, c));
  }

  /** Every group has a first member. */
  predicate NonEmptyGroups(duplicates: seq<Group>) {
    forall i :: 0 <= i < |duplicates| ==> |duplicates[i].contacts| >= 1
  }

  /** `initialSelections` after the first `n` groups: each group's phone
      maps to its first member's name, a later group overriding an
      earlier one with the same phone. */
  function InitialSelections(duplicates: seq<Group>, n: nat): map<string, string>
    requires n <= |duplicates| && NonEmptyGroups(duplicates)
  {
    if n == 0 then map[]
    else
      var g := duplicates[n - 1];
      InitialSelections(duplicates, n - 1)[g.phone := g.contacts[0].contact.name]
  }

  /** `initializeMergeSelections`, as the source runs it; every group must
      have a first member. */
  method InitializeMergeSelections(duplicates: seq<Group>) returns (initialSelections: map<string, string>)
    requires NonEmptyGroups(duplicates)
    ensures initialSelections == InitialSelections(duplicates, |duplicates|)
  {
    initialSelections := map[];
    for n := 0 to |duplicates|
      invariant initialSelections == InitialSelections(duplicates, n)
    {
      var group := duplicates[n];
      initialSelections := initialSelections[group.phone := group.contacts[0].contact.name];
    }
  }

  /** Only the groups' phones are selected. */
  lemma {:induction false} InitialSelectionsDomain(duplicates: seq<Group>, n: nat)
    requires n <= |duplicates| && NonEmptyGroups(duplicates)
    ensures forall p :: p in InitialSelections(duplicates, n) ==> exists i :: 0 <= i < n && duplicates[i].phone == p
  {
    if n > 0 {
      InitialSelectionsDomain(duplicates, n - 1);
    }
  }

  /** When no later group shares its phone, a group's phone selects its
      first member's name. */
  lemma {:induction false} InitialSelectionsAt(duplicates: seq<Group>, n: nat, i: nat)
    requires i < n <= |duplicates| && NonEmptyGroups(duplicates)
    requires forall j :: i < j < n ==> duplicates[j].phone != duplicates[i].phone
    ensures var sel := InitialSelections(duplicates, n);
      duplicates[i].phone in sel && sel[duplicates[i].phone] == duplicates[i].contacts[0].contact.name
  {
    if i < n - 1 {
      InitialSelectionsAt(duplicates, n - 1, i);
    }
  }

  /** A group member whose name is selected for the group's phone is kept. */
  lemma SelectedMemberKept(contactList: seq<Contact>, gs: seq<Group>, sel: map<string, string>, g: Group, j: nat)
    requires g in gs && IsGroupOf(contactList, g) && j < |g.contacts|
    requires g.phone in sel && sel[g.phone] == g.contacts[j].contact.name
    ensures PhoneOf(g.contacts[j].contact) == g.phone
    ensures g.contacts[j].contact in MergeContacts(contactList, gs, sel)
  {
    var m := g.contacts[j];
    var phones := Phones(contactList);
    IndicesWithBound(phones, |contactList|, g.phone, j);
    assert GroupIndices(g)[j] == m.originalIndex;
    assert phones[m.originalIndex] == g.phone;
    assert m.contact == contactList[m.originalIndex] && m.contact in contactList;
    assert HasGroup(gs, g.phone);
    assert Keep(gs, sel, m.contact);
    FilterMembers(contactList, c => Keep(gs, sel, c));
  }

  /** Merging the groups `findDuplicates` found with the initial
      selections keeps, for every group, its first member. */
  lemma MergeKeepsOnePerGroup(contactList: seq<Contact>)
    ensures NonEmptyGroups(DuplicateGroups(contactList))
    ensures var gs := DuplicateGroups(contactList);
      forall g :: g in gs ==>
        g.contacts[0].contact in MergeContacts(contactList, gs, InitialSelections(gs, |gs|))
        && PhoneOf(g.contacts[0].contact) == g.phone
  {
    var gs := DuplicateGroups(contactList);
    DuplicateGroupsSound(contactList);
    DuplicateGroupsDistinct(contactList);
    assert NonEmptyGroups(gs) by {
      forall i | 0 <= i < |gs| ensures |gs[i].contacts| >= 1 {
        assert gs[i] in gs;
      }
    }
    var sel := InitialSelections(gs, |gs|);
    forall g | g in gs
      ensures g.contacts[0].contact in MergeContacts(contactList, gs, sel)
      ensures PhoneOf(g.contacts[0].contact) == g.phone
    {
      var i :| 0 <= i < |gs| && gs[i] == g;
      InitialSelectionsAt(gs, |gs|, i);
      SelectedMemberKept(contactList, gs, sel, g, 0);
    }
  }
}
