/** The new-user draft editor: how an input's `name` attribute is routed to
    one field of the draft, and the update that writes the typed value
    there. */
module DraftEditor {
  import opened Text
  import opened Users

  datatype Option<T> = None | Some(value: T)

  /** Where a change event goes: a key of the company sub-record, a key of
      the address sub-record, or a top-level key. */
  datatype FieldPath = CompanyPath(key: string) | AddressPath(key: string) | TopPath(key: string)

  /** The routing of an input name: prefix "company." or "address." selects
      the sub-record and `name.split(".")[1]` the key within it; any other
      name is itself the top-level key. */
  function Route(name: string): FieldPath
  {
    if IsPrefix("company.", name) then
      assert name[..8][7] == '.';
      CompanyPath(SecondSegment(name))
    else if IsPrefix("address.", name) then
      assert name[..8][7] == '.';
      AddressPath(SecondSegment(name))
    else
      TopPath(name)
  }

  /** A "company."-prefixed name reaches the company key up to the next dot;
      all of it when the key has no dot. */
  lemma RouteCompany(key: string)
    ensures Route("company." + key) == CompanyPath(BeforeDot(key))
    ensures '.' !in key ==> Route("company." + key) == CompanyPath(key)
  {
    var name := "company." + key;
    assert name[..8] == "company.";
    assert name == "company" + "." + key;
    SecondSegmentOf("company", key);
  }

  /** An "address."-prefixed name reaches the address key up to the next
      dot; all of it when the key has no dot. */
  lemma RouteAddress(key: string)
    ensures Route("address." + key) == AddressPath(BeforeDot(key))
    ensures '.' !in key ==> Route("address." + key) == AddressPath(key)
  {
    var name := "address." + key;
    assert name[0] == 'a';
    assert name[..8] == "address.";
    assert name == "address" + "." + key;
    SecondSegmentOf("address", key);
  }

  /** The schema field a company key names, if any. */
  function CompanyKeyOf(key: string): Option<CompanyKey>
  {
    if key == "name" then Some(CompanyName)
    else if key == "catchPhrase" then Some(CatchPhrase)
    else if key == "bs" then Some(Bs)
    else None
  }

  /** The schema field an address key names, if any. */
  function AddressKeyOf(key: string): Option<AddressKey>
  {
    if key == "street" then Some(Street)
    else if key == "suite" then Some(Suite)
    else if key == "city" then Some(City)
    else if key == "zipcode" then Some(Zipcode)
    else None
  }

  /** The top-level text field a key names, if any. */
  function TopKeyOf(key: string): Option<TopKey>
  {
    if key == "name" then Some(Name)
    else if key == "username" then Some(Username)
    else if key == "email" then Some(Email)
    else if key == "phone" then Some(Phone)
    else if key == "website" then Some(Website)
    else None
  }

  /** The draft field a path names, if any. */
  function PathSlot(p: FieldPath): Option<Slot>
  {
    match p
    case CompanyPath(k) => (match CompanyKeyOf(k) case Some(c) => Some(InCompany(c)) case None => None)
    case AddressPath(k) => (match AddressKeyOf(k) case Some(a) => Some(InAddress(a)) case None => None)
    case TopPath(k) => (match TopKeyOf(k) case Some(t) => Some(Top(t)) case None => None)
  }

  /** The draft field an input name ends up writing, if any. */
  function SlotOf(name: string): Option<Slot>
  {
    PathSlot(Route(name))
  }

  /** `{ ...company, [key]: value }`: the named company field takes the value,
      the other company fields keep theirs. */
  function SetCompanyKey(c: Company, key: string, value: string): (r: Company)
    ensures forall k :: CompanyField(r, k) == if CompanyKeyOf(key) == Some(k) then value else CompanyField(c, k)
  {
    match CompanyKeyOf(key)
    case Some(CompanyName) => c.(name := value)
    case Some(CatchPhrase) => c.(catchPhrase := value)
    case Some(Bs) => c.(bs := value)
    case None => c
  }

  /** `{ ...address, [key]: value }`: the named address field takes the
      value, the other address fields keep theirs. */
  function SetAddressKey(a: Address, key: string, value: string): (r: Address)
    ensures forall k :: AddressField(r, k) == if AddressKeyOf(key) == Some(k) then value else AddressField(a, k)
  {
    match AddressKeyOf(key)
    case Some(Street) => a.(street := value)
    case Some(Suite) => a.(suite := value)
    case Some(City) => a.(city := value)
    case Some(Zipcode) => a.(zipcode := value)
    case None => a
  }

  /** `{ ...draft, [key]: value }`: the named top-level field takes the value;
      the other top-level fields and both sub-records are kept. */
  function SetTopKey(d: Draft, key: string, value: string): (r: Draft)
    ensures forall k :: DraftTopField(r, k) == if TopKeyOf(key) == Some(k) then value else DraftTopField(d, k)
    ensures r.address == d.address && r.company == d.company
  {
    match TopKeyOf(key)
    case Some(Name) => d.(name := value)
    case Some(Username) => d.(username := value)
    case Some(Email) => d.(email := value)
    case Some(Phone) => d.(phone := value)
    case Some(Website) => d.(website := value)
    case None => d
  }

  /** The draft after a change event on the input called `name`: the field
      that name routes to holds the value and every other field, in the
      sub-records too, is unchanged. */
  function InputChange(d: Draft, name: string, value: string): (r: Draft)
    ensures forall s :: DraftField(r, s) == if SlotOf(name) == Some(s) then value else DraftField(d, s)
  {
    WritePath(d, Route(name), value)
  }

  /** One branch of the change handler: the sub-record update for a company
      or address path, the top-level update otherwise. */
  function WritePath(d: Draft, p: FieldPath, value: string): (r: Draft)
    ensures forall s :: DraftField(r, s) == if PathSlot(p) == Some(s) then value else DraftField(d, s)
  {
    match p
    case CompanyPath(k) => d.(company := SetCompanyKey(d.company, k, value))
    case AddressPath(k) => d.(address := SetAddressKey(d.address, k, value))
    case TopPath(k) => SetTopKey(d, k, value)
  }

  /** A name that routes to no field changes nothing. */
  lemma InputChangeUnknownName(d: Draft, name: string, value: string)
    requires SlotOf(name) == None
    ensures InputChange(d, name, value) == d
  {
    DraftExtensional(InputChange(d, name, value), d);
  }

  /** Writing a field twice keeps only the second value. */
  lemma InputChangeOverwrites(d: Draft, name: string, v1: string, v2: string)
    ensures InputChange(InputChange(d, name, v1), name, v2) == InputChange(d, name, v2)
  {
    DraftExtensional(InputChange(InputChange(d, name, v1), name, v2), InputChange(d, name, v2));
  }

  /** The `name` attribute of the form's input for each company field. */
  function CompanyKeyName(k: CompanyKey): string
  {
    match k
    case CompanyName => "name"
    case CatchPhrase => "catchPhrase"
    case Bs => "bs"
  }

  /** The `name` attribute of the form's input for each address field. */
  function AddressKeyName(k: AddressKey): string
  {
    match k
    case Street => "street"
    case Suite => "suite"
    case City => "city"
    case Zipcode => "zipcode"
  }

  /** The `name` attribute of the form's input for each top-level field. */
  function TopKeyName(k: TopKey): string
  {
    match k
    case Name => "name"
    case Username => "username"
    case Email => "email"
    case Phone => "phone"
    case Website => "website"
  }

  /** The `name` attribute of the input that displays a draft field: the
      top-level key itself, or the sub-record and key joined by a dot. */
  function InputName(s: Slot): string
  {
    match s
    case Top(k) => TopKeyName(k)
    case InAddress(k) => "address." + AddressKeyName(k)
    case InCompany(k) => "company." + CompanyKeyName(k)
  }

  /** A top-level input's name reaches that top-level field. */
  lemma TopRoundTrip(k: TopKey)
    ensures SlotOf(TopKeyName(k)) == Some(Top(k))
  {
    var name := TopKeyName(k);
    assert '.' !in name;
    DotFreeNotPrefixed("company.", name);
    DotFreeNotPrefixed("address.", name);
    assert TopKeyOf(name) == Some(k);
  }

  /** An address input's name reaches that address field. */
  lemma AddressRoundTrip(k: AddressKey)
    ensures SlotOf("address." + AddressKeyName(k)) == Some(InAddress(k))
  {
    var key := AddressKeyName(k);
    assert AddressKeyOf(key) == Some(k);
    assert '.' !in key;
    RouteAddress(key);
    assert Route("address." + key) == AddressPath(key);
  }

  /** A company input's name reaches that company field. */
  lemma CompanyRoundTrip(k: CompanyKey)
    ensures SlotOf("company." + CompanyKeyName(k)) == Some(InCompany(k))
  {
    var key := CompanyKeyName(k);
    assert CompanyKeyOf(key) == Some(k);
    assert '.' !in key;
    RouteCompany(key);
    assert Route("company." + key) == CompanyPath(key);
  }

  /** Every input of the form writes exactly the field it displays. */
  lemma InputNameRoundTrip(s: Slot)
    ensures SlotOf(InputName(s)) == Some(s)
  {
    match s
    case Top(k) => TopRoundTrip(k);
    case InAddress(k) => AddressRoundTrip(k);
    case InCompany(k) => CompanyRoundTrip(k);
  }

  /** Distinct fields have distinct inputs. */
  lemma InputNameInjective(s: Slot, t: Slot)
    requires InputName(s) == InputName(t)
    ensures s == t
  {
    InputNameRoundTrip(s);
    InputNameRoundTrip(t);
  }
}
