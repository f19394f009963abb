/** The user record, its address and company sub-records, and the new-user
    draft the form edits (a user without its id). Every text field of a
    user or a draft is addressed by a typed key, so that "this field changed
    and no other" can be stated once for all fields. */
module Users {

  datatype Address = Address(street: string, suite: string, city: string, zipcode: string)

  datatype Company = Company(name: string, catchPhrase: string, bs: string)

  datatype User = User(
    id: int,
    name: string, username: string, email: string, phone: string, website: string,
    address: Address,
    company: Company)

  /** The form's draft: every field of a User except `id`. */
  datatype Draft = Draft(
    name: string, username: string, email: string, phone: string, website: string,
    address: Address,
    company: Company)

  /** The top-level text fields, the address fields and the company fields. */
  datatype TopKey = Name | Username | Email | Phone | Website
  datatype AddressKey = Street | Suite | City | Zipcode
  datatype CompanyKey = CompanyName | CatchPhrase | Bs

  /** One text field of a draft (or of a user, ignoring its id). */
  datatype Slot = Top(top: TopKey) | InAddress(address: AddressKey) | InCompany(company: CompanyKey)

  function AddressField(a: Address, k: AddressKey): string
  {
    match k
    case Street => a.street
    case Suite => a.suite
    case City => a.city
    case Zipcode => a.zipcode
  }

  function CompanyField(c: Company, k: CompanyKey): string
  {
    match k
    case CompanyName => c.name
    case CatchPhrase => c.catchPhrase
    case Bs => c.bs
  }

  function DraftTopField(d: Draft, k: TopKey): string
  {
    match k
    case Name => d.name
    case Username => d.username
    case Email => d.email
    case Phone => d.phone
    case Website => d.website
  }

  /** The value of one field of a draft. */
  function DraftField(d: Draft, s: Slot): string
  {
    match s
    case Top(k) => DraftTopField(d, k)
    case InAddress(k) => AddressField(d.address, k)
    case InCompany(k) => CompanyField(d.company, k)
  }

  /** The value of one field of a user. */
  function UserField(u: User, s: Slot): string
  {
    match s
    case Top(Name) => u.name
    case Top(Username) => u.username
    case Top(Email) => u.email
    case Top(Phone) => u.phone
    case Top(Website) => u.website
    case InAddress(k) => AddressField(u.address, k)
    case InCompany(k) => CompanyField(u.company, k)
  }

  /** The draft the form starts from and is reset to: every field empty. */
  const EmptyDraft := Draft("", "", "", "", "", Address("", "", "", ""), Company("", "", ""))

  /** Every field of the empty draft, sub-records included, is "". */
  lemma EmptyDraftIsEmpty(s: Slot)
    ensures DraftField(EmptyDraft, s) == ""
  {
  }

  /** The user `{ ...draft, id }`: the draft's field values and the given id. */
  function FromDraft(d: Draft, id: int): (u: User)
    ensures u.id == id
    ensures forall s :: UserField(u, s) == DraftField(d, s)
  {
    User(id, d.name, d.username, d.email, d.phone, d.website, d.address, d.company)
  }

  /** Two drafts that agree on every field are the same draft. */
  lemma DraftExtensional(d: Draft, e: Draft)
    requires forall s :: DraftField(d, s) == DraftField(e, s)
    ensures d == e
  {
    assert DraftField(d, Top(Name)) == DraftField(e, Top(Name));
    assert DraftField(d, Top(Username)) == DraftField(e, Top(Username));
    assert DraftField(d, Top(Email)) == DraftField(e, Top(Email));
    assert DraftField(d, Top(Phone)) == DraftField(e, Top(Phone));
    assert DraftField(d, Top(Website)) == DraftField(e, Top(Website));
    assert DraftField(d, InAddress(Street)) == DraftField(e, InAddress(Street));
    assert DraftField(d, InAddress(Suite)) == DraftField(e, InAddress(Suite));
    assert DraftField(d, InAddress(City)) == DraftField(e, InAddress(City));
    assert DraftField(d, InAddress(Zipcode)) == DraftField(e, InAddress(Zipcode));
    assert DraftField(d, InCompany(CompanyName)) == DraftField(e, InCompany(CompanyName));
    assert DraftField(d, InCompany(CatchPhrase)) == DraftField(e, InCompany(CatchPhrase));
    assert DraftField(d, InCompany(Bs)) == DraftField(e, InCompany(Bs));
  }
}
