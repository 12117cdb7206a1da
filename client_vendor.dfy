// The client and vendor service (Areas/Accounting/Services/ClientVendorService.cs):
// the search queries with their optional filters, the vendor-type parse, the
// code-uniqueness and delete guards, and the two tables the service changes.

module ClientsVendors {
  import opened Wrappers
  import opened Text
  import opened DotNet
  import opened Ledger
  import opened Repository
  import opened Catalog

  function ClientKey(c: Client): nat { c.id }
  function ClientCode(c: Client): string { c.code }
  function ClientActive(c: Client): bool { c.isActive }
  function VendorKey(v: Vendor): nat { v.id }
  function VendorCode(v: Vendor): string { v.code }
  function VendorActive(v: Vendor): bool { v.isActive }

  // ---------------------------------------------------------------------------
  // The query chain
  // ---------------------------------------------------------------------------

  /** The search-term test: the term occurs in the code or in one of the names. */
  predicate Mentions(code: string, nameEn: string, nameAr: string, term: string)
  {
    Contains(code, term) || Contains(nameEn, term) || Contains(nameAr, term)
  }

  /** One `if (...) query = query.Where(p)` of the chain. */
  function NarrowIf<T>(rows: seq<T>, apply: bool, p: T -> bool): seq<T>
  {
    if apply then Where(rows, p) else rows
  }

  /** A step that is skipped only when its filter keeps everything is that filter. */
  lemma NarrowIfIsWhere<T>(rows: seq<T>, apply: bool, p: T -> bool)
    requires !apply ==> forall x :: p(x)
    ensures NarrowIf(rows, apply, p) == Where(rows, p)
  {
    if !apply {
      WhereAll(rows, p);
    }
  }

  /** Three optional steps in a row are one Where on the conjunction. */
  lemma NarrowThree<T>(rows: seq<T>, a1: bool, p1: T -> bool, a2: bool, p2: T -> bool, a3: bool, p3: T -> bool)
    requires !a1 ==> forall x :: p1(x)
    requires !a2 ==> forall x :: p2(x)
    requires !a3 ==> forall x :: p3(x)
    ensures NarrowIf(NarrowIf(NarrowIf(rows, a1, p1), a2, p2), a3, p3) == Where(rows, Both(Both(p1, p2), p3))
  {
    NarrowIfIsWhere(rows, a1, p1);
    NarrowIfIsWhere(NarrowIf(rows, a1, p1), a2, p2);
    NarrowIfIsWhere(NarrowIf(NarrowIf(rows, a1, p1), a2, p2), a3, p3);
    WhereWhere(rows, p1, p2);
    WhereWhere(rows, Both(p1, p2), p3);
  }

  /** Four optional steps in a row are one Where on the conjunction. */
  lemma NarrowFour<T>(rows: seq<T>, a1: bool, p1: T -> bool, a2: bool, p2: T -> bool, a3: bool, p3: T -> bool, a4: bool, p4: T -> bool)
    requires !a1 ==> forall x :: p1(x)
    requires !a2 ==> forall x :: p2(x)
    requires !a3 ==> forall x :: p3(x)
    requires !a4 ==> forall x :: p4(x)
    ensures NarrowIf(NarrowIf(NarrowIf(NarrowIf(rows, a1, p1), a2, p2), a3, p3), a4, p4) == Where(rows, Both(Both(Both(p1, p2), p3), p4))
  {
    NarrowThree(rows, a1, p1, a2, p2, a3, p3);
    NarrowIfIsWhere(NarrowIf(NarrowIf(NarrowIf(rows, a1, p1), a2, p2), a3, p3), a4, p4);
    WhereWhere(rows, Both(Both(p1, p2), p3), p4);
  }

  function ClientTermFilter(term: Option<string>): Client -> bool
  {
    (c: Client) => IsNullOrEmpty(term) || Mentions(c.code, c.nameEn, c.nameAr, term.value)
  }

  function ClientTypeFilter(clientType: Option<ClientType>): Client -> bool
  {
    (c: Client) => clientType.None? || c.clientType == clientType.value
  }

  function ClientActiveFilter(isActive: Option<bool>): Client -> bool
  {
    (c: Client) => isActive.None? || c.isActive == isActive.value
  }

  /** Every condition of the client search at once. */
  function ClientMatches(term: Option<string>, clientType: Option<ClientType>, isActive: Option<bool>): Client -> bool
  {
    (c: Client) =>
      (IsNullOrEmpty(term) || Mentions(c.code, c.nameEn, c.nameAr, term.value)) &&
      (clientType.None? || c.clientType == clientType.value) &&
      (isActive.None? || c.isActive == isActive.value)
  }

  /** GetClientsAsync(searchTerm, clientType, isActive): the filters given are
      conjunctive, an empty term matches everything, and the table order is kept. */
  function SearchClients(clients: seq<Client>, term: Option<string>, clientType: Option<ClientType>, isActive: Option<bool>): (r: seq<Client>)
    ensures r == Where(clients, ClientMatches(term, clientType, isActive))
    ensures forall c :: c in r <==> (c in clients &&
              (IsNullOrEmpty(term) || Mentions(c.code, c.nameEn, c.nameAr, term.value)) &&
              (clientType.None? || c.clientType == clientType.value) &&
              (isActive.None? || c.isActive == isActive.value))
    ensures SubsequenceOf(r, clients)
  {
    ClientChainIsOneWhere(clients, term, clientType, isActive);
    WhereMembers(clients, ClientMatches(term, clientType, isActive));
    NarrowIf(NarrowIf(NarrowIf(clients, !IsNullOrEmpty(term), ClientTermFilter(term)),
                      clientType.Some?, ClientTypeFilter(clientType)),
             isActive.Some?, ClientActiveFilter(isActive))
  }

  /** The chain of optional Where calls is one Where on the conjunction. */
  lemma ClientChainIsOneWhere(clients: seq<Client>, term: Option<string>, clientType: Option<ClientType>, isActive: Option<bool>)
    ensures NarrowIf(NarrowIf(NarrowIf(clients, !IsNullOrEmpty(term), ClientTermFilter(term)),
                              clientType.Some?, ClientTypeFilter(clientType)),
                     isActive.Some?, ClientActiveFilter(isActive))
            == Where(clients, ClientMatches(term, clientType, isActive))
  {
    var f1 := ClientTermFilter(term);
    var f2 := ClientTypeFilter(clientType);
    var f3 := ClientActiveFilter(isActive);
    NarrowThree(clients, !IsNullOrEmpty(term), f1, clientType.Some?, f2, isActive.Some?, f3);
    WhereSame(clients, Both(Both(f1, f2), f3), ClientMatches(term, clientType, isActive));
  }

  // ---------------------------------------------------------------------------
  // Vendor types
  // ---------------------------------------------------------------------------

  /** The members of the VendorType enum (Vendor.cs). */
  const IndividualVendor := 1
  const CompanyVendor := 2
  const GovernmentVendor := 3

  /** `Enum.TryParse<VendorType>`: after trimming white space, a member name,
      case-sensitive, or any Int32 numeral (which parses even when no member
      has that value). */
  function ParseVendorType(s: string): (r: Option<int>)
    ensures var t := TrimDotNet(s);
      (t == "Individual" ==> r == Some(IndividualVendor)) &&
      (t == "Company" ==> r == Some(CompanyVendor)) &&
      (t == "Government" ==> r == Some(GovernmentVendor)) &&
      (t != "Individual" && t != "Company" && t != "Government" ==> r == TryParseInt(t))
  {
    var t := TrimDotNet(s);
    if t == "Individual" then Some(IndividualVendor)
    else if t == "Company" then Some(CompanyVendor)
    else if t == "Government" then Some(GovernmentVendor)
    else TryParseInt(t)
  }

  /** Surrounding white space does not change the parse. */
  lemma ParseVendorTypePadded(s: string)
    ensures ParseVendorType(" " + s + "\t") == ParseVendorType(s)
  {
    TrimDotNetPadded(s, '\t');
    TrimDotNetPadded(s + "\t", ' ');
    assert " " + s + "\t" == [' '] + (s + "\t");
  }

  /** The type the vendor search filters on, if any. */
  function RequestedType(vendorType: Option<string>): (r: Option<int>)
    ensures IsNullOrEmpty(vendorType) ==> r.None?
    ensures !IsNullOrEmpty(vendorType) ==> r == ParseVendorType(vendorType.value)
  {
    if IsNullOrEmpty(vendorType) then None else ParseVendorType(vendorType.value)
  }

  /** GetVendorTypesAsync: the type names the service offers. */
  const OfferedVendorTypes: seq<string> := ["Supplier", "Contractor", "ServiceProvider"]

  /** None of the offered names is a member of the enum or a numeral. */
  lemma OfferedTypesDoNotParse(s: string)
    requires s in OfferedVendorTypes
    ensures ParseVendorType(s).None?
  {
    assert forall k :: 0 <= k < |s| ==> IsAsciiLetter(s[k]);
    assert TrimDotNet(s) == s;
    TrimNothing(s);
    assert !AllDigits(s) by {
      assert !IsAsciiDigit(s[0]);
    }
  }

  // ---------------------------------------------------------------------------
  // The vendor search
  // ---------------------------------------------------------------------------

  function VendorTermFilter(term: Option<string>): Vendor -> bool
  {
    (v: Vendor) => IsNullOrEmpty(term) || Mentions(v.code, v.nameEn, v.nameAr, term.value)
  }

  function VendorTypeFilter(requested: Option<int>): Vendor -> bool
  {
    (v: Vendor) => requested.None? || v.vendorType == requested.value
  }

  function VendorActiveFilter(isActive: Option<bool>): Vendor -> bool
  {
    (v: Vendor) => isActive.None? || v.isActive == isActive.value
  }

  function WithholdingFilter(subject: Option<bool>): Vendor -> bool
  {
    (v: Vendor) => subject.None? || v.subjectToWithholdingTax == subject.value
  }

  /** Every condition of the vendor search at once. */
  function VendorMatches(term: Option<string>, requested: Option<int>, isActive: Option<bool>, subject: Option<bool>): Vendor -> bool
  {
    (v: Vendor) =>
      (IsNullOrEmpty(term) || Mentions(v.code, v.nameEn, v.nameAr, term.value)) &&
      (requested.None? || v.vendorType == requested.value) &&
      (isActive.None? || v.isActive == isActive.value) &&
      (subject.None? || v.subjectToWithholdingTax == subject.value)
  }

  /** GetVendorsAsync(searchTerm, vendorType, isActive, subjectToWithholdingTax):
      conjunctive filters in table order; a type that does not parse filters nothing. */
  function SearchVendors(vendors: seq<Vendor>, term: Option<string>, vendorType: Option<string>, isActive: Option<bool>, subject: Option<bool>): (r: seq<Vendor>)
    ensures r == Where(vendors, VendorMatches(term, RequestedType(vendorType), isActive, subject))
    ensures forall v :: v in r <==> (v in vendors &&
              (IsNullOrEmpty(term) || Mentions(v.code, v.nameEn, v.nameAr, term.value)) &&
              (RequestedType(vendorType).None? || v.vendorType == RequestedType(vendorType).value) &&
              (isActive.None? || v.isActive == isActive.value) &&
              (subject.None? || v.subjectToWithholdingTax == subject.value))
    ensures SubsequenceOf(r, vendors)
  {
    var requested := RequestedType(vendorType);
    VendorChainIsOneWhere(vendors, term, requested, isActive, subject);
    WhereMembers(vendors, VendorMatches(term, requested, isActive, subject));
    NarrowIf(NarrowIf(NarrowIf(NarrowIf(vendors, !IsNullOrEmpty(term), VendorTermFilter(term)),
                               requested.Some?, VendorTypeFilter(requested)),
                      isActive.Some?, VendorActiveFilter(isActive)),
             subject.Some?, WithholdingFilter(subject))
  }

  /** The chain of optional Where calls is one Where on the conjunction. */
  lemma VendorChainIsOneWhere(vendors: seq<Vendor>, term: Option<string>, requested: Option<int>, isActive: Option<bool>, subject: Option<bool>)
    ensures NarrowIf(NarrowIf(NarrowIf(NarrowIf(vendors, !IsNullOrEmpty(term), VendorTermFilter(term)),
                                       requested.Some?, VendorTypeFilter(requested)),
                              isActive.Some?, VendorActiveFilter(isActive)),
                     subject.Some?, WithholdingFilter(subject))
            == Where(vendors, VendorMatches(term, requested, isActive, subject))
  {
    var f1 := VendorTermFilter(term);
    var f2 := VendorTypeFilter(requested);
    var f3 := VendorActiveFilter(isActive);
    var f4 := WithholdingFilter(subject);
    NarrowFour(vendors, !IsNullOrEmpty(term), f1, requested.Some?, f2, isActive.Some?, f3, subject.Some?, f4);
    WhereSame(vendors, Both(Both(Both(f1, f2), f3), f4), VendorMatches(term, requested, isActive, subject));
  }

  /** Choosing one of the offered type names narrows the search by nothing. */
  lemma OfferedTypeFiltersNothing(vendors: seq<Vendor>, term: Option<string>, s: string, isActive: Option<bool>, subject: Option<bool>)
    requires s in OfferedVendorTypes
    ensures SearchVendors(vendors, term, Some(s), isActive, subject) == SearchVendors(vendors, term, None, isActive, subject)
  {
    OfferedTypesDoNotParse(s);
  }

  // ---------------------------------------------------------------------------
  // Queries and guards
  // ---------------------------------------------------------------------------

  /** GetClientsAsync(isActive). */
  function ClientsWhere(clients: seq<Client>, isActive: Option<bool>): (r: seq<Client>)
    ensures isActive.None? ==> r == clients
    ensures forall c :: c in r <==> c in clients && (isActive.None? || c.isActive == isActive.value)
    ensures SubsequenceOf(r, clients)
  {
    ByActive(clients, ClientActive, isActive)
  }

  /** GetVendorsAsync(isActive). */
  function VendorsWhere(vendors: seq<Vendor>, isActive: Option<bool>): (r: seq<Vendor>)
    ensures isActive.None? ==> r == vendors
    ensures forall v :: v in r <==> v in vendors && (isActive.None? || v.isActive == isActive.value)
    ensures SubsequenceOf(r, vendors)
  {
    ByActive(vendors, VendorActive, isActive)
  }

  /** The search with no criteria is the isActive query. */
  lemma SearchWithoutCriteria(clients: seq<Client>, isActive: Option<bool>)
    ensures SearchClients(clients, None, None, isActive) == ClientsWhere(clients, isActive)
  {
    if isActive.Some? {
      WhereSame(clients, ClientMatches(None, None, isActive), IsActiveIs(ClientActive, isActive.value));
    } else {
      WhereAll(clients, ClientMatches(None, None, isActive));
    }
  }

  /** IsClientCodeUniqueAsync. */
  function IsClientCodeUnique(clients: seq<Client>, code: string, id: Option<Guid>): (r: bool)
    ensures id.None? ==> (r <==> forall k :: 0 <= k < |clients| ==> clients[k].code != code)
    ensures DistinctCodes(clients, ClientCode) ==>
              (r <==> forall k :: 0 <= k < |clients| && clients[k].code == code ==> id == Some(clients[k].id))
  {
    if DistinctCodes(clients, ClientCode) then
      CodeUniqueExactly(clients, ClientKey, ClientCode, code, id);
      CodeIsUnique(clients, ClientKey, ClientCode, code, id)
    else CodeIsUnique(clients, ClientKey, ClientCode, code, id)
  }

  /** IsVendorCodeUniqueAsync. */
  function IsVendorCodeUnique(vendors: seq<Vendor>, code: string, id: Option<Guid>): (r: bool)
    ensures id.None? ==> (r <==> forall k :: 0 <= k < |vendors| ==> vendors[k].code != code)
    ensures DistinctCodes(vendors, VendorCode) ==>
              (r <==> forall k :: 0 <= k < |vendors| && vendors[k].code == code ==> id == Some(vendors[k].id))
  {
    if DistinctCodes(vendors, VendorCode) then
      CodeUniqueExactly(vendors, VendorKey, VendorCode, code, id);
      CodeIsUnique(vendors, VendorKey, VendorCode, code, id)
    else CodeIsUnique(vendors, VendorKey, VendorCode, code, id)
  }

  /** CanDeleteClientAsync: no journal entry names the client. */
  function CanDeleteClient(entries: seq<JournalEntry>, id: Guid): (r: bool)
    ensures r <==> forall k :: 0 <= k < |entries| ==> entries[k].clientId != Some(id)
  {
    !(exists k :: 0 <= k < |entries| && entries[k].clientId == Some(id))
  }

  /** CanDeleteVendorAsync: no journal entry names the vendor. */
  function CanDeleteVendor(entries: seq<JournalEntry>, id: Guid): (r: bool)
    ensures r <==> forall k :: 0 <= k < |entries| ==> entries[k].vendorId != Some(id)
  {
    !(exists k :: 0 <= k < |entries| && entries[k].vendorId == Some(id))
  }

  // ---------------------------------------------------------------------------
  // The service object
  // ---------------------------------------------------------------------------

  class ClientVendorService {
    var clients: seq<Client>
    var vendors: seq<Vendor>

    constructor (clients: seq<Client>, vendors: seq<Vendor>)
      ensures this.clients == clients && this.vendors == vendors
    {
      this.clients := clients;
      this.vendors := vendors;
    }

    /** CreateClientAsync: a taken id is a key violation. The row is added under the key Add gives it (`generated`, when the id is Guid.Empty). */
    method CreateClient(c: Client, generated: Guid) returns (r: Outcome<Fault>)
      requires generated != 0 && GetById(clients, ClientKey, generated).None?
      modifies this`clients
      ensures var keyed := c.(id := StoredKey(c.id, generated));
        r == (if GetById(old(clients), ClientKey, keyed.id).Some? then Fail(DuplicateKey) else Done) &&
        clients == if r.Done? then old(clients) + [keyed] else old(clients)
      ensures c.id == 0 ==> r == Done
    {
      var keyed := c.(id := StoredKey(c.id, generated));
      if GetById(clients, ClientKey, keyed.id).Some? {
        return Fail(DuplicateKey);
      }
      clients := clients + [keyed];
      r := Done;
    }

    /** UpdateClientAsync: a client with no stored row updates nothing. */
    method UpdateClient(c: Client) returns (r: Outcome<Fault>)
      modifies this`clients
      ensures r == if GetById(old(clients), ClientKey, c.id).Some? then Done else Fail(NotFound)
      ensures clients == Replace(old(clients), ClientKey, c)
    {
      r := if GetById(clients, ClientKey, c.id).Some? then Done else Fail(NotFound);
      clients := Replace(clients, ClientKey, c);
    }

    /** DeleteClientAsync: a missing id changes nothing. */
    method DeleteClient(id: Guid)
      modifies this`clients
      ensures clients == DeleteById(old(clients), ClientKey, id)
      ensures GetById(old(clients), ClientKey, id).None? ==> clients == old(clients)
    {
      var found := GetById(clients, ClientKey, id);
      if found.Some? {
        clients := DeleteById(clients, ClientKey, id);
      }
    }

    /** CreateVendorAsync: a taken id is a key violation. The row is added under the key Add gives it (`generated`, when the id is Guid.Empty). */
    method CreateVendor(v: Vendor, generated: Guid) returns (r: Outcome<Fault>)
      requires generated != 0 && GetById(vendors, VendorKey, generated).None?
      modifies this`vendors
      ensures var keyed := v.(id := StoredKey(v.id, generated));
        r == (if GetById(old(vendors), VendorKey, keyed.id).Some? then Fail(DuplicateKey) else Done) &&
        vendors == if r.Done? then old(vendors) + [keyed] else old(vendors)
      ensures v.id == 0 ==> r == Done
    {
      var keyed := v.(id := StoredKey(v.id, generated));
      if GetById(vendors, VendorKey, keyed.id).Some? {
        return Fail(DuplicateKey);
      }
      vendors := vendors + [keyed];
      r := Done;
    }

    /** UpdateVendorAsync. */
    method UpdateVendor(v: Vendor) returns (r: Outcome<Fault>)
      modifies this`vendors
      ensures r == if GetById(old(vendors), VendorKey, v.id).Some? then Done else Fail(NotFound)
      ensures vendors == Replace(old(vendors), VendorKey, v)
    {
      r := if GetById(vendors, VendorKey, v.id).Some? then Done else Fail(NotFound);
      vendors := Replace(vendors, VendorKey, v);
    }

    /** DeleteVendorAsync: a missing id changes nothing. */
    method DeleteVendor(id: Guid)
      modifies this`vendors
      ensures vendors == DeleteById(old(vendors), VendorKey, id)
      ensures GetById(old(vendors), VendorKey, id).None? ==> vendors == old(vendors)
    {
      var found := GetById(vendors, VendorKey, id);
      if found.Some? {
        vendors := DeleteById(vendors, VendorKey, id);
      }
    }
  }
}
