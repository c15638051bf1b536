/**
 * The dashboard's "companies without recent contact" list: the companies
 * that have never been contacted, or whose newest contact is older than a
 * cutoff, each with that newest contact attached. The cutoff is one
 * calendar month before the time the page is rendered; it is a parameter
 * here.
 */
module StaleLeads {
  import opened Wrappers
  import opened Records

  /** A listed company: every field of the company plus its newest contact, if any. */
  datatype FlaggedCompany = FlaggedCompany(company: Company, latestContact: Option<Contact>)

  /**
   * `sort((a, b) => b.contact_date - a.contact_date)[0]`: a contact with the
   * latest date, or none for an empty list. The sort is stable, so among
   * contacts on the same date it is the first in the list.
   */
  function Newest(cs: seq<Contact>): (r: Option<Contact>)
    ensures r.None? <==> cs == []
    ensures r.Some? ==> r.value in cs && forall k :: k in cs ==> k.contactDate <= r.value.contactDate
    ensures r.Some? ==>
      (exists i :: 0 <= i < |cs| && cs[i] == r.value &&
        forall j :: 0 <= j < i ==> cs[j].contactDate < r.value.contactDate)
  {
    if cs == [] then None
    else
      var last := cs[|cs| - 1];
      assert cs == cs[..|cs| - 1] + [last];
      match Newest(cs[..|cs| - 1])
      case None => Some(last)
      case Some(n) => if n.contactDate < last.contactDate then Some(last) else Some(n)
  }

  /**
   * `contacts?.filter(...).sort(...)[0]` for company `id`: undefined when the
   * contact list is absent or holds no contact of the company; otherwise a
   * contact of the company dated no earlier than any other of its contacts.
   * The filter and the attached value both come from this one function.
   */
  function LatestContact(id: string, contacts: Option<seq<Contact>>): (r: Option<Contact>)
    ensures contacts.None? ==> r.None?
    ensures contacts.Some? ==> (r.None? <==> forall k :: k in contacts.value ==> k.companyId != Some(id))
    ensures r.Some? ==> contacts.Some? && r.value in contacts.value && r.value.companyId == Some(id)
    ensures r.Some? ==> forall k :: k in contacts.value && k.companyId == Some(id) ==> k.contactDate <= r.value.contactDate
  {
    match contacts
    case None => None
    case Some(ks) =>
      var mine := ContactsOf(id, ks);
      assert mine == [] <==> forall k :: k in ks ==> k.companyId != Some(id) by {
        if mine != [] { assert mine[0] in mine; }
      }
      Newest(mine)
  }

  /**
   * The filter of lines 21-31: no newest contact, or one strictly before the
   * cutoff. Stated against an independent definition: with a contact list,
   * a company is stale exactly when every one of its contacts is dated
   * strictly before the cutoff, so a company with no contact is stale and a
   * single contact on or after the cutoff keeps it off the list; without a
   * contact list every company is stale.
   */
  function IsStale(c: Company, contacts: Option<seq<Contact>>, cutoff: Date): (stale: bool)
    ensures contacts.None? ==> stale
    ensures contacts.Some? ==>
      (stale <==> forall k :: k in contacts.value && k.companyId == Some(c.id) ==> k.contactDate < cutoff)
  {
    match LatestContact(c.id, contacts)
    case None => true
    case Some(latest) => latest.contactDate < cutoff
  }

  /** `b` keeps the elements of `a` in order, possibly with others in between. */
  predicate IsSubsequence<T(==)>(a: seq<T>, b: seq<T>)
    decreases |b|
  {
    if a == [] then true
    else if b == [] then false
    else if a[0] == b[0] then IsSubsequence(a[1..], b[1..])
    else IsSubsequence(a, b[1..])
  }

  /** Putting an element in front of `b` keeps every subsequence of `b`. */
  lemma {:induction false} SubsequenceOfLonger<T>(a: seq<T>, x: T, b: seq<T>)
    requires IsSubsequence(a, b)
    ensures IsSubsequence(a, [x] + b)
    decreases |b|, 1
  {
    assert ([x] + b)[1..] == b;
    if a != [] && a[0] == x {
      SubsequenceDropHead(a, b);
    }
  }

  /** A subsequence without its first element is still a subsequence. */
  lemma {:induction false} SubsequenceDropHead<T>(a: seq<T>, b: seq<T>)
    requires a != [] && IsSubsequence(a, b)
    ensures IsSubsequence(a[1..], b)
    decreases |b|, 0
  {
    assert b != [];
    assert [b[0]] + b[1..] == b;
    if a[0] == b[0] {
      SubsequenceOfLonger(a[1..], b[0], b[1..]);
    } else {
      SubsequenceDropHead(a, b[1..]);
      SubsequenceOfLonger(a[1..], b[0], b[1..]);
    }
  }

  /** `companies.filter(...)`: the stale companies, in list order. */
  function KeepStale(companies: seq<Company>, contacts: Option<seq<Contact>>, cutoff: Date): (kept: seq<Company>)
    ensures |kept| <= |companies|
    ensures forall c :: c in kept <==> c in companies && IsStale(c, contacts, cutoff)
    ensures IsSubsequence(kept, companies)
  {
    if companies == [] then []
    else
      var rest := KeepStale(companies[1..], contacts, cutoff);
      assert companies == [companies[0]] + companies[1..];
      if IsStale(companies[0], contacts, cutoff) then
        assert ([companies[0]] + rest)[1..] == rest;
        [companies[0]] + rest
      else
        SubsequenceOfLonger(rest, companies[0], companies[1..]);
        rest
  }

  /** `.map((company) => ({ ...company, latestContact }))`. */
  function AttachLatest(kept: seq<Company>, contacts: Option<seq<Contact>>): (r: seq<FlaggedCompany>)
    ensures |r| == |kept|
    ensures forall i :: 0 <= i < |r| ==> r[i].company == kept[i]
    ensures forall i :: 0 <= i < |r| ==> r[i].latestContact == LatestContact(kept[i].id, contacts)
  {
    if kept == [] then []
    else [FlaggedCompany(kept[0], LatestContact(kept[0].id, contacts))] + AttachLatest(kept[1..], contacts)
  }

  /** The companies of some listed rows, in order. */
  function CompaniesOf(rows: seq<FlaggedCompany>): (cs: seq<Company>)
    ensures |cs| == |rows| && forall i :: 0 <= i < |rows| ==> cs[i] == rows[i].company
  {
    if rows == [] then [] else [rows[0].company] + CompaniesOf(rows[1..])
  }

  /**
   * `companiesWithoutRecentContact`: absent when the company list is absent;
   * otherwise no longer than the company list.
   */
  function CompaniesWithoutRecentContact(companies: Option<seq<Company>>, contacts: Option<seq<Contact>>, cutoff: Date)
    : (r: Option<seq<FlaggedCompany>>)
    ensures r.Some? <==> companies.Some?
    ensures r.Some? ==> |r.value| <= |companies.value|
  {
    match companies
    case None => None
    case Some(cs) => Some(AttachLatest(KeepStale(cs, contacts, cutoff), contacts))
  }

  /**
   * Lines 51-52: the alert card is rendered when the list exists and is not
   * empty, that is, exactly when the company list exists and some company
   * in it is stale.
   */
  function AlertShown(companies: Option<seq<Company>>, contacts: Option<seq<Contact>>, cutoff: Date): (shown: bool)
    ensures shown <==> companies.Some? && exists c :: c in companies.value && IsStale(c, contacts, cutoff)
  {
    var r := CompaniesWithoutRecentContact(companies, contacts, cutoff);
    ListNonEmptyIffSomeStale(companies, contacts, cutoff);
    r.Some? && |r.value| > 0
  }

  // ----- Properties -----

  /**
   * The listed rows are exactly the stale companies, in their original
   * order and with all their fields; each carries the very contact that
   * decided its inclusion, which is its newest one.
   */
  lemma ListedRows(cs: seq<Company>, contacts: Option<seq<Contact>>, cutoff: Date)
    ensures var out := CompaniesWithoutRecentContact(Some(cs), contacts, cutoff).value;
      && IsSubsequence(CompaniesOf(out), cs)
      && (forall c :: c in CompaniesOf(out) <==> c in cs && IsStale(c, contacts, cutoff))
      && (forall i :: 0 <= i < |out| ==> out[i].latestContact == LatestContact(out[i].company.id, contacts))
      && (forall i :: 0 <= i < |out| ==>
            out[i].latestContact.None? || out[i].latestContact.value.contactDate < cutoff)
  {
    var kept := KeepStale(cs, contacts, cutoff);
    var out := AttachLatest(kept, contacts);
    assert CompaniesOf(out) == kept;
    forall i | 0 <= i < |out|
      ensures out[i].latestContact.None? || out[i].latestContact.value.contactDate < cutoff
    {
      assert kept[i] in kept;
    }
  }

  /** A company no contact refers to is always listed, and listed without a latest contact. */
  lemma NeverContactedIsListed(cs: seq<Company>, ks: seq<Contact>, cutoff: Date, c: Company)
    requires c in cs
    requires forall k :: k in ks ==> k.companyId != Some(c.id)
    ensures var out := CompaniesWithoutRecentContact(Some(cs), Some(ks), cutoff).value;
      && (exists i :: 0 <= i < |out| && out[i].company == c)
      && forall i :: 0 <= i < |out| && out[i].company == c ==> out[i].latestContact == None
  {
    ListedRows(cs, Some(ks), cutoff);
    var out := CompaniesWithoutRecentContact(Some(cs), Some(ks), cutoff).value;
    assert c in CompaniesOf(out);
  }

  /** One contact of a company on or after the cutoff keeps that company off the list. */
  lemma RecentContactIsNotListed(cs: seq<Company>, ks: seq<Contact>, cutoff: Date, c: Company, k: Contact)
    requires k in ks && k.companyId == Some(c.id) && k.contactDate >= cutoff
    ensures var out := CompaniesWithoutRecentContact(Some(cs), Some(ks), cutoff).value;
      forall i :: 0 <= i < |out| ==> out[i].company != c
  {
    ListedRows(cs, Some(ks), cutoff);
    var out := CompaniesWithoutRecentContact(Some(cs), Some(ks), cutoff).value;
    forall i | 0 <= i < |out| ensures out[i].company != c {
      assert CompaniesOf(out)[i] == out[i].company;
    }
  }

  /** With no contact list, every company is listed, in order, without a latest contact. */
  lemma {:induction false} NoContactListFlagsAll(cs: seq<Company>, cutoff: Date)
    ensures CompaniesWithoutRecentContact(Some(cs), None, cutoff)
         == Some(seq(|cs|, i requires 0 <= i < |cs| => FlaggedCompany(cs[i], None)))
  {
    KeepAllStale(cs, None, cutoff);
    var out := AttachLatest(cs, None);
    var expected := seq(|cs|, i requires 0 <= i < |cs| => FlaggedCompany(cs[i], None));
    assert |out| == |expected|;
    assert forall i :: 0 <= i < |cs| ==> out[i] == expected[i];
    assert out == expected;
  }

  /** The list is present and non-empty exactly when the company list exists and some company in it is stale. */
  lemma ListNonEmptyIffSomeStale(companies: Option<seq<Company>>, contacts: Option<seq<Contact>>, cutoff: Date)
    ensures var r := CompaniesWithoutRecentContact(companies, contacts, cutoff);
      (r.Some? && |r.value| > 0)
      <==> companies.Some? && exists c :: c in companies.value && IsStale(c, contacts, cutoff)
  {
    if companies.Some? {
      ListedRows(companies.value, contacts, cutoff);
      var out := CompaniesWithoutRecentContact(companies, contacts, cutoff).value;
      if |out| > 0 {
        assert CompaniesOf(out)[0] in CompaniesOf(out);
      }
    }
  }

  /** The contacts that refer to some company of `cs`, in list order. */
  function RelevantContacts(ks: seq<Contact>, cs: seq<Company>): seq<Contact> {
    if ks == [] then []
    else
      (if exists c :: c in cs && ks[0].companyId == Some(c.id) then [ks[0]] else [])
        + RelevantContacts(ks[1..], cs)
  }

  lemma {:induction false} RelevantContactsOfCompany(ks: seq<Contact>, cs: seq<Company>, c: Company)
    requires c in cs
    ensures ContactsOf(c.id, RelevantContacts(ks, cs)) == ContactsOf(c.id, ks)
  {
    if ks != [] {
      RelevantContactsOfCompany(ks[1..], cs, c);
      var head := if exists c' :: c' in cs && ks[0].companyId == Some(c'.id) then [ks[0]] else [];
      assert ks == [ks[0]] + ks[1..];
      ContactsOfAppend(c.id, head, RelevantContacts(ks[1..], cs));
      ContactsOfAppend(c.id, [ks[0]], ks[1..]);
    }
  }

  lemma {:induction false} ContactsOfAppend(id: string, a: seq<Contact>, b: seq<Contact>)
    ensures ContactsOf(id, a + b) == ContactsOf(id, a) + ContactsOf(id, b)
    decreases |b|
  {
    if b == [] {
      assert a + b == a;
    } else {
      var p := b[..|b| - 1];
      assert a + b == (a + p) + [b[|b| - 1]];
      assert (a + b)[..|a + b| - 1] == a + p;
      ContactsOfAppend(id, a, p);
    }
  }

  lemma {:induction false} KeepStaleSameContacts(cs: seq<Company>, all: seq<Company>, ks1: seq<Contact>, ks2: seq<Contact>, cutoff: Date)
    requires forall c :: c in cs ==> c in all
    requires forall c :: c in all ==> ContactsOf(c.id, ks1) == ContactsOf(c.id, ks2)
    ensures KeepStale(cs, Some(ks1), cutoff) == KeepStale(cs, Some(ks2), cutoff)
    ensures AttachLatest(KeepStale(cs, Some(ks1), cutoff), Some(ks1))
         == AttachLatest(KeepStale(cs, Some(ks2), cutoff), Some(ks2))
  {
    if cs != [] {
      KeepStaleSameContacts(cs[1..], all, ks1, ks2, cutoff);
      assert cs[0] in all;
      var kept := KeepStale(cs, Some(ks1), cutoff);
      forall i | 0 <= i < |kept|
        ensures LatestContact(kept[i].id, Some(ks1)) == LatestContact(kept[i].id, Some(ks2))
      {
        assert kept[i] in kept;
      }
    }
  }

  /** Contacts whose company id matches no listed company have no effect on the result. */
  lemma UnrelatedContactsIgnored(cs: seq<Company>, ks: seq<Contact>, cutoff: Date)
    ensures CompaniesWithoutRecentContact(Some(cs), Some(ks), cutoff)
         == CompaniesWithoutRecentContact(Some(cs), Some(RelevantContacts(ks, cs)), cutoff)
  {
    forall c | c in cs
      ensures ContactsOf(c.id, ks) == ContactsOf(c.id, RelevantContacts(ks, cs))
    {
      RelevantContactsOfCompany(ks, cs, c);
    }
    KeepStaleSameContacts(cs, cs, ks, RelevantContacts(ks, cs), cutoff);
  }

  /**
   * Nothing sorts the list by date: when every company is stale, the list
   * is the company list itself, in its own order, whatever the contact
   * dates are.
   */
  lemma {:induction false} AllStaleKeepsCompanyOrder(cs: seq<Company>, contacts: Option<seq<Contact>>, cutoff: Date)
    requires forall c :: c in cs ==> IsStale(c, contacts, cutoff)
    ensures CompaniesOf(CompaniesWithoutRecentContact(Some(cs), contacts, cutoff).value) == cs
  {
    KeepAllStale(cs, contacts, cutoff);
    var out := AttachLatest(cs, contacts);
    assert CompaniesOf(out) == cs;
  }

  lemma {:induction false} KeepAllStale(cs: seq<Company>, contacts: Option<seq<Contact>>, cutoff: Date)
    requires forall c :: c in cs ==> IsStale(c, contacts, cutoff)
    ensures KeepStale(cs, contacts, cutoff) == cs
  {
    if cs != [] {
      assert cs[0] in cs;
      KeepAllStale(cs[1..], contacts, cutoff);
      assert cs == [cs[0]] + cs[1..];
    }
  }
}
