/**
 * The rows the dashboard reads from the record store, as typed records.
 * Dates are integers (the milliseconds that `Date.getTime()` returns); text
 * dates are taken as already parsed.
 */
module Records {
  import opened Wrappers

  /** A point in time, as `new Date(s).getTime()` gives it. */
  type Date = int

  /** A row of the `companies` table. */
  datatype Company = Company(
    id: string,
    name: string,
    contact: string,
    communicationChannel: string,
    reachMethod: string,
    createdAt: Option<string>,
    updatedAt: Option<string>,
    businessTypeId: Option<int>,
    leadStatusId: Option<string>,
    personInCharge: Option<string>)

  /** A row of the `contact_history` table; `companyId` is nullable. */
  datatype Contact = Contact(
    id: string,
    companyId: Option<string>,
    content: string,
    status: string,
    contactDate: Date,
    createdAt: Option<string>,
    updatedAt: Option<string>)

  /** A row of the `projects` table; `status` is nullable, an absent payment date means unpaid. */
  datatype Project = Project(
    id: string,
    companyId: Option<string>,
    price: int,
    billingDate: Date,
    paymentDate: Option<Date>,
    status: Option<string>)

  /**
   * `contacts.filter((contact) => contact.company_id === id)`: the contacts
   * of one company, in list order. A contact whose company id is null
   * belongs to no company.
   */
  function ContactsOf(id: string, contacts: seq<Contact>): (r: seq<Contact>)
    ensures |r| <= |contacts|
    ensures forall k :: k in r <==> k in contacts && k.companyId == Some(id)
  {
    if contacts == [] then []
    else
      var last := contacts[|contacts| - 1];
      assert contacts == contacts[..|contacts| - 1] + [last];
      ContactsOf(id, contacts[..|contacts| - 1]) + (if last.companyId == Some(id) then [last] else [])
  }
}
