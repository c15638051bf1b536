/**
 * The data behind the three dashboard charts: contacts per company (the
 * five most contacted companies), contacts per month, and projects per
 * status. Each counts rows into a JavaScript object and then turns the
 * object into chart rows.
 */
module DashboardCharts {
  import opened Wrappers
  import opened Records
  import opened Counting
  import opened ChartData

  /** How many companies the contacts-per-company chart shows. */
  const CompanyChartSize: nat := 5

  /** The property name a nullable string becomes when it indexes an object: `null` becomes "null". */
  function KeyOf(s: Option<string>): (k: Key)
    ensures s.Some? ==> k == s.value
    ensures k == "null" <==> s == None || s == Some("null")
  {
    match s
    case None => "null"
    case Some(v) => v
  }

  // ----- CompanyChart -----

  /** The key each contact is counted under: its company id. */
  function CompanyKeys(contacts: seq<Contact>): seq<Key> {
    seq(|contacts|, i requires 0 <= i < |contacts| => KeyOf(contacts[i].companyId))
  }

  /**
   * Counted under a company id other than "null" are exactly the contacts
   * of that company.
   */
  lemma {:induction false} CompanyKeyCount(contacts: seq<Contact>, id: string)
    requires id != "null"
    ensures Occurrences(CompanyKeys(contacts), id) == |ContactsOf(id, contacts)|
  {
    if contacts != [] {
      var p := contacts[..|contacts| - 1];
      assert CompanyKeys(contacts)[..|contacts| - 1] == CompanyKeys(p);
      CompanyKeyCount(p, id);
    }
  }

  /** Lines 22-25: the number of contacts per company id; the counts add up to the number of contacts. */
  method ContactsByCompany(contacts: seq<Contact>) returns (acc: Counter)
    ensures acc == Tally(CompanyKeys(contacts))
    ensures forall id :: id != "null" ==> acc.Get(id) == |ContactsOf(id, contacts)|
    ensures Total(acc.Entries()) == |contacts|
  {
    acc := CountKeys(CompanyKeys(contacts));
    TallyEntries(CompanyKeys(contacts));
    forall id | id != "null"
      ensures acc.Get(id) == |ContactsOf(id, contacts)|
    {
      CompanyKeyCount(contacts, id);
    }
  }

  /** Lines 27-31: one row per company, its name and its count (0 for a company never counted). */
  function CompanyRows(companies: seq<Company>, acc: Counter): (rows: seq<Datum>)
    ensures |rows| == |companies|
    ensures forall i :: 0 <= i < |companies| ==> rows[i].name == companies[i].name && rows[i].value == acc.Get(companies[i].id)
    ensures forall i :: 0 <= i < |companies| && companies[i].id !in acc.counts ==> rows[i].value == 0
  {
    seq(|companies|, i requires 0 <= i < |companies| => Datum(companies[i].name, acc.Get(companies[i].id)))
  }

  /**
   * What `CompanyChart` plots, as a value: the specification the method `CompanyChart`
   * below, which runs the reduce loop `CountKeys`, is proved to meet.
   */
  function CompanyChartData(companies: seq<Company>, contacts: seq<Contact>): seq<Datum> {
    Top(CompanyRows(companies, Tally(CompanyKeys(contacts))), CompanyChartSize)
  }

  /**
   * Lines 22-33: the five most contacted companies (fewer if there are fewer
   * companies), most contacted first; no company left out has more contacts
   * than the last one shown.
   */
  method CompanyChart(companies: seq<Company>, contacts: seq<Contact>) returns (data: seq<Datum>)
    ensures data == CompanyChartData(companies, contacts)
    ensures |data| == if |companies| < CompanyChartSize then |companies| else CompanyChartSize
    ensures SortedDesc(data)
    ensures multiset(data) <= multiset(CompanyRows(companies, Tally(CompanyKeys(contacts))))
    ensures |data| > 0 ==>
      forall x :: x in multiset(CompanyRows(companies, Tally(CompanyKeys(contacts)))) - multiset(data) ==>
        x.value <= data[|data| - 1].value
  {
    var acc := ContactsByCompany(contacts);
    data := Top(CompanyRows(companies, acc), CompanyChartSize);
  }

  /**
   * Each company's row carries its name and, for any id but "null", the
   * number of contacts with that company id, so 0 when it has none.
   */
  lemma CompanyRowValues(companies: seq<Company>, contacts: seq<Contact>)
    ensures var rows := CompanyRows(companies, Tally(CompanyKeys(contacts)));
      && |rows| == |companies|
      && (forall i :: 0 <= i < |companies| ==> rows[i].name == companies[i].name)
      && (forall i :: 0 <= i < |companies| && companies[i].id != "null" ==>
            rows[i].value == |ContactsOf(companies[i].id, contacts)|)
      && (forall i :: 0 <= i < |companies| && companies[i].id != "null" &&
            (forall k :: k in contacts ==> k.companyId != Some(companies[i].id))
            ==> rows[i].value == 0)
  {
    var rows := CompanyRows(companies, Tally(CompanyKeys(contacts)));
    forall i | 0 <= i < |companies| && companies[i].id != "null"
      ensures rows[i].value == |ContactsOf(companies[i].id, contacts)|
    {
      CompanyKeyCount(contacts, companies[i].id);
    }
  }

  // ----- ContactChart -----

  /** The key each contact is counted under: the short month name of its date, without the year. */
  function MonthKeys(contacts: seq<Contact>, monthOf: Date -> string): seq<Key> {
    seq(|contacts|, i requires 0 <= i < |contacts| => monthOf(contacts[i].contactDate))
  }

  /**
   * What `ContactChart` plots, as a value: the specification the method `ContactChart`
   * below, which runs the reduce loop `CountKeys`, is proved to meet.
   */
  function ContactChartData(contacts: seq<Contact>, monthOf: Date -> string): seq<Datum> {
    ToData(Tally(MonthKeys(contacts, monthOf)).Entries())
  }

  /**
   * Lines 51-61: one row per month name that some contact falls in, valued
   * by the number of contacts in that month (at least one); the values add
   * up to the number of contacts.
   */
  method ContactChart(contacts: seq<Contact>, monthOf: Date -> string) returns (data: seq<Datum>)
    ensures data == ContactChartData(contacts, monthOf)
    ensures Distinct(Names(data))
    ensures forall m :: m in Names(data) <==> exists k :: k in contacts && monthOf(k.contactDate) == m
    ensures forall i :: 0 <= i < |data| ==> data[i].value == Occurrences(MonthKeys(contacts, monthOf), data[i].name) >= 1
    ensures Sum(data) == |contacts|
  {
    var ks := MonthKeys(contacts, monthOf);
    var acc := CountKeys(ks);
    data := ToData(acc.Entries());
    TallyData(ks);
    MonthKeysMembers(contacts, monthOf);
  }

  lemma MonthKeysMembers(contacts: seq<Contact>, monthOf: Date -> string)
    ensures forall m :: m in MonthKeys(contacts, monthOf) <==> exists k :: k in contacts && monthOf(k.contactDate) == m
  {
    var ks := MonthKeys(contacts, monthOf);
    forall m | m in ks
      ensures exists k :: k in contacts && monthOf(k.contactDate) == m
    {
      var j :| 0 <= j < |contacts| && ks[j] == m;
      assert contacts[j] in contacts;
    }
    forall k | k in contacts
      ensures monthOf(k.contactDate) in ks
    {
      var j :| 0 <= j < |contacts| && contacts[j] == k;
      assert ks[j] == monthOf(k.contactDate);
    }
  }

  /**
   * The key is the month name alone: moving a contact to another date with
   * the same month name, in another year say, leaves the chart unchanged.
   */
  lemma SameMonthOtherYear(contacts: seq<Contact>, monthOf: Date -> string, i: nat, d: Date)
    requires i < |contacts|
    requires monthOf(d) == monthOf(contacts[i].contactDate)
    ensures ContactChartData(contacts[i := contacts[i].(contactDate := d)], monthOf) == ContactChartData(contacts, monthOf)
  {
    assert MonthKeys(contacts[i := contacts[i].(contactDate := d)], monthOf) == MonthKeys(contacts, monthOf);
  }

  // ----- ProjectChart -----

  /** The key each project is counted under: its status, "null" when it has none. */
  function StatusKeys(projects: seq<Project>): seq<Key> {
    seq(|projects|, i requires 0 <= i < |projects| => KeyOf(projects[i].status))
  }

  /**
   * What `ProjectChart` plots, as a value: the specification the method `ProjectChart`
   * below, which runs the reduce loop `CountKeys`, is proved to meet.
   */
  function ProjectChartData(projects: seq<Project>): seq<Datum> {
    ToData(Tally(StatusKeys(projects)).Entries())
  }

  /**
   * Lines 79-86: one row per distinct status, valued by the number of
   * projects with that status (at least one); the values add up to the
   * number of projects.
   */
  method ProjectChart(projects: seq<Project>) returns (data: seq<Datum>)
    ensures data == ProjectChartData(projects)
    ensures Distinct(Names(data))
    ensures forall s :: s in Names(data) <==> exists p :: p in projects && KeyOf(p.status) == s
    ensures forall i :: 0 <= i < |data| ==> data[i].value == Occurrences(StatusKeys(projects), data[i].name) >= 1
    ensures Sum(data) == |projects|
  {
    var ks := StatusKeys(projects);
    var acc := CountKeys(ks);
    data := ToData(acc.Entries());
    TallyData(ks);
    StatusKeysMembers(projects);
  }

  lemma StatusKeysMembers(projects: seq<Project>)
    ensures forall s :: s in StatusKeys(projects) <==> exists p :: p in projects && KeyOf(p.status) == s
  {
    var ks := StatusKeys(projects);
    forall s | s in ks
      ensures exists p :: p in projects && KeyOf(p.status) == s
    {
      var j :| 0 <= j < |projects| && ks[j] == s;
      assert projects[j] in projects;
    }
    forall p | p in projects
      ensures KeyOf(p.status) in ks
    {
      var j :| 0 <= j < |projects| && projects[j] == p;
      assert ks[j] == KeyOf(p.status);
    }
  }
}
