/** The customer list of the settings page: a form that is validated before
    a customer is added or edited, deletion after confirmation, a search
    over name, email and phone, and pages of eight customers. */
module CustomerManagement {
  import opened Wrappers
  import opened Seqs
  import opened JsText
  import opened Paging
  import opened TableIVS

  const ItemsPerPage: nat := 8

  datatype Customer = Customer(id: string, name: string, email: string, phone: string, address: string, notes: string)

  /** `customerForm` */
  datatype Form = Form(name: string, email: string, phone: string, address: string, notes: string)

  const EmptyForm := Form("", "", "", "", "")

  /** The form's inputs, by their `id`. */
  datatype Field = Name | Email | Phone | Address | Notes

  function FieldOf(f: Form, field: Field): string
  {
    match field
    case Name => f.name
    case Email => f.email
    case Phone => f.phone
    case Address => f.address
    case Notes => f.notes
  }

  /** `{ ...prev, [id]: value }` */
  function WithField(f: Form, field: Field, value: string): (g: Form)
    ensures FieldOf(g, field) == value
    ensures forall other :: other != field ==> FieldOf(g, other) == FieldOf(f, other)
  {
    match field
    case Name => f.(name := value)
    case Email => f.(email := value)
    case Phone => f.(phone := value)
    case Address => f.(address := value)
    case Notes => f.(notes := value)
  }

  /** The form filled from a customer, for editing. */
  function FormOf(c: Customer): Form
  {
    Form(c.name, c.email, c.phone, c.address, c.notes)
  }

  /** `{ ...c, ...customerForm }`: the form's fields over the customer's. */
  function Apply(c: Customer, f: Form): (d: Customer)
    ensures d.id == c.id && FormOf(d) == f
  {
    Customer(c.id, f.name, f.email, f.phone, f.address, f.notes)
  }

  /* ---------- validation ---------- */

  /** The match of `\S+@\S+\.\S+` at an `@` and a `.`: a non-space just
      before the `@`, only non-spaces (at least one) between them, and a
      non-space just after the `.`. */
  predicate EmailMatchAt(s: string, at: int, dot: int)
  {
    && 1 <= at && at + 1 < dot && dot + 1 < |s|
    && s[at] == '@' && s[dot] == '.'
    && !IsSpace(s[at - 1]) && !IsSpace(s[dot + 1])
    && forall k :: at < k < dot ==> !IsSpace(s[k])
  }

  /** `/\S+@\S+\.\S+/.test(s)`: the pattern matches somewhere in `s`. */
  predicate EmailShape(s: string)
  {
    exists at, dot | 0 <= at < dot < |s| :: EmailMatchAt(s, at, dot)
  }

  /** Spaceless, non-empty parts joined by `@` and `.` have the shape,
      whatever text surrounds them. */
  lemma EmailShapeOf(before: string, local: string, domain: string, tld: string, after: string)
    requires local != [] && domain != [] && tld != []
    requires forall i :: 0 <= i < |local| ==> !IsSpace(local[i])
    requires forall i :: 0 <= i < |domain| ==> !IsSpace(domain[i])
    requires forall i :: 0 <= i < |tld| ==> !IsSpace(tld[i])
    ensures EmailShape(before + local + "@" + domain + "." + tld + after)
  {
    var s := before + local + "@" + domain + "." + tld + after;
    var at := |before| + |local|;
    var dot := at + 1 + |domain|;
    assert s[at - 1] == local[|local| - 1];
    assert s[dot + 1] == tld[0];
    forall k | at < k < dot
      ensures !IsSpace(s[k])
    {
      assert s[k] == domain[k - at - 1];
    }
    assert EmailMatchAt(s, at, dot);
  }

  /** Without a `.` after an `@` nothing matches. */
  lemma EmailNeedsDotAfterAt(s: string)
    requires forall i, j :: 0 <= i < j < |s| && s[i] == '@' ==> s[j] != '.'
    ensures !EmailShape(s)
  {
    forall at, dot | 1 <= at && at + 1 < dot && dot + 1 < |s| && s[at] == '@'
      ensures !EmailMatchAt(s, at, dot)
    {
      assert s[dot] != '.';
    }
  }

  /** The messages `validateForm` collects. */
  const NameRequired := "El nombre es obligatorio."
  const EmailRequired := "El email es obligatorio."
  const EmailInvalid := "Formato de email inválido."
  const PhoneRequired := "El teléfono es obligatorio."

  /** `validateForm`'s checks: the `errors` object it builds, one check
      after another, and whether it stayed empty. Changes nothing. */
  method CheckForm(f: Form) returns (errors: map<Field, string>, ok: bool)
    ensures ok <==> !IsBlank(f.name) && !IsBlank(f.email) && EmailShape(f.email) && !IsBlank(f.phone)
    ensures ok <==> errors == map[]
    ensures Name in errors <==> IsBlank(f.name)
    ensures Name in errors ==> errors[Name] == NameRequired
    ensures Email in errors <==> IsBlank(f.email) || !EmailShape(f.email)
    ensures Email in errors ==> errors[Email] == if IsBlank(f.email) then EmailRequired else EmailInvalid
    ensures Phone in errors <==> IsBlank(f.phone)
    ensures Phone in errors ==> errors[Phone] == PhoneRequired
    ensures Address !in errors && Notes !in errors
  {
    errors := map[];
    if IsBlank(f.name) {
      errors := errors[Name := NameRequired];
    }
    if IsBlank(f.email) {
      errors := errors[Email := EmailRequired];
    } else if !EmailShape(f.email) {
      errors := errors[Email := EmailInvalid];
    }
    if IsBlank(f.phone) {
      errors := errors[Phone := PhoneRequired];
    }
    ok := |errors| == 0;
    if !ok {
      assert Name in errors || Email in errors || Phone in errors by {
        var k :| k in errors;
      }
    }
  }

  /** A form passes exactly when its name, email and phone are filled in
      and the email has the pattern's shape. */
  predicate ValidForm(f: Form)
  {
    !IsBlank(f.name) && !IsBlank(f.email) && EmailShape(f.email) && !IsBlank(f.phone)
  }

  /* ---------- the list operations ---------- */

  /** The edit: the form's fields over every customer with the edited id. */
  function Edited(cs: seq<Customer>, id: string, f: Form): (out: seq<Customer>)
    ensures |out| == |cs|
  {
    seq(|cs|, i requires 0 <= i < |cs| => if cs[i].id == id then Apply(cs[i], f) else cs[i])
  }

  function IdOf(c: Customer): string
  {
    c.id
  }

  function Ids(cs: seq<Customer>): seq<string>
  {
    Map(cs, IdOf)
  }

  predicate DistinctIds(cs: seq<Customer>)
  {
    forall i, j :: 0 <= i < j < |cs| ==> cs[i].id != cs[j].id
  }

  /** Editing keeps every id in its place, gives the edited customer the
      form's fields, leaves every other customer as it was, and doing it
      twice is doing it once. */
  lemma EditedSpec(cs: seq<Customer>, id: string, f: Form)
    ensures var out := Edited(cs, id, f);
      && Ids(out) == Ids(cs)
      && (forall i :: 0 <= i < |cs| && cs[i].id == id ==> FormOf(out[i]) == f)
      && (forall i :: 0 <= i < |cs| && cs[i].id != id ==> out[i] == cs[i])
      && Edited(out, id, f) == out
      && (DistinctIds(cs) ==> DistinctIds(out))
  {
  }

  function IdIsNot(id: string): Customer -> bool
  {
    (c: Customer) => c.id != id
  }

  /** `prev.filter(c => c.id !== customerId)` */
  function Removed(cs: seq<Customer>, id: string): seq<Customer>
  {
    Filter(cs, IdIsNot(id))
  }

  /** Deleting drops exactly the customers with that id and keeps every
      copy of the others, in order; distinct ids stay distinct, and an id no customer
      has changes nothing. */
  lemma RemovedSpec(cs: seq<Customer>, id: string)
    ensures var out := Removed(cs, id);
      && Subseq(out, cs)
      && (forall c :: c in out <==> c in cs && c.id != id)
      && (forall c :: multiset(out)[c] == if c.id != id then multiset(cs)[c] else 0)
      && (DistinctIds(cs) ==> DistinctIds(out))
      && (id !in Ids(cs) ==> out == cs)
  {
    var out := Removed(cs, id);
    FilterSubseq(cs, IdIsNot(id));
    FilterMultiset(cs, IdIsNot(id));
    forall c
      ensures c in out <==> c in cs && c.id != id
      ensures multiset(out)[c] == if c.id != id then multiset(cs)[c] else 0
    {
      FilterMembership(cs, IdIsNot(id), c);
      assert IdIsNot(id)(c) == (c.id != id);
    }
    if DistinctIds(cs) {
      FilterDistinctIds(cs, id);
    }
    if id !in Ids(cs) {
      assert forall i :: 0 <= i < |cs| ==> cs[i].id in Ids(cs);
      FilterKeepsAll(cs, IdIsNot(id));
    }
  }

  lemma {:induction false} FilterDistinctIds(cs: seq<Customer>, id: string)
    requires DistinctIds(cs)
    ensures DistinctIds(Removed(cs, id))
  {
    if cs != [] {
      var pre, x := cs[..|cs| - 1], cs[|cs| - 1];
      FilterDistinctIds(pre, id);
      if x.id != id {
        forall c | c in Removed(pre, id)
          ensures c.id != x.id
        {
          FilterMembership(pre, IdIsNot(id), c);
        }
      }
    }
  }

  /** Adding: the new customer goes to the end with the form's fields; a
      fresh id keeps the ids distinct. */
  lemma AddedSpec(cs: seq<Customer>, newId: string, f: Form)
    ensures var out := cs + [Apply(Customer(newId, "", "", "", "", ""), f)];
      && |out| == |cs| + 1 && out[..|cs|] == cs
      && out[|cs|].id == newId && FormOf(out[|cs|]) == f
      && (DistinctIds(cs) && newId !in Ids(cs) ==> DistinctIds(out))
  {
    var out := cs + [Apply(Customer(newId, "", "", "", "", ""), f)];
    if DistinctIds(cs) && newId !in Ids(cs) {
      assert forall i :: 0 <= i < |cs| ==> cs[i].id in Ids(cs);
    }
  }

  /* ---------- search and pages ---------- */

  /** The search: name, email or phone contains the term, ignoring case. */
  predicate MatchesCustomer(c: Customer, term: string)
  {
    Includes(Lower(c.name), Lower(term)) || Includes(Lower(c.email), Lower(term)) || Includes(Lower(c.phone), Lower(term))
  }

  function Matching(term: string): Customer -> bool
  {
    (c: Customer) => MatchesCustomer(c, term)
  }

  /** `filteredCustomers` */
  function Filtered(cs: seq<Customer>, term: string): seq<Customer>
  {
    Filter(cs, Matching(term))
  }

  /** The search keeps the matching customers in their order, each as often
      as it is listed, and no other; an empty search keeps them all. */
  lemma FilteredSpec(cs: seq<Customer>, term: string)
    ensures Subseq(Filtered(cs, term), cs)
    ensures forall c :: c in Filtered(cs, term) <==> c in cs && MatchesCustomer(c, term)
    ensures forall c :: multiset(Filtered(cs, term))[c] == if MatchesCustomer(c, term) then multiset(cs)[c] else 0
    ensures term == "" ==> Filtered(cs, term) == cs
  {
    FilterSubseq(cs, Matching(term));
    FilterMultiset(cs, Matching(term));
    forall c
      ensures c in Filtered(cs, term) <==> c in cs && MatchesCustomer(c, term)
    {
      FilterMembership(cs, Matching(term), c);
    }
    if term == "" {
      assert Lower(term) == [];
      forall i | 0 <= i < |cs|
        ensures Matching(term)(cs[i])
      {
        EmptyIncluded(Lower(cs[i].name));
      }
      FilterKeepsAll(cs, Matching(term));
    }
  }

  function TotalPages(shown: seq<Customer>): nat
  {
    PageCount(|shown|, ItemsPerPage)
  }

  /** `currentCustomers`: at most eight, the ones from `(page - 1) * 8`. */
  lemma CurrentCustomersSpec(shown: seq<Customer>, page: int)
    requires page >= 1
    ensures var rows := PageOf(shown, page, ItemsPerPage);
      && |rows| <= ItemsPerPage
      && (forall i :: 0 <= i < |rows| ==> PageStart(page, ItemsPerPage) + i < |shown|
                                          && rows[i] == shown[PageStart(page, ItemsPerPage) + i])
      && (rows != [] <==> page <= TotalPages(shown))
  {
    PageOfSpec(shown, page, ItemsPerPage);
  }

  /* ---------- the component's state ---------- */

  class CustomerManager {
    var customers: seq<Customer>
    var searchTerm: string
    var currentPage: int
    var isDialogOpen: bool
    /** The customer being edited; `None` while adding. */
    var currentCustomer: Option<Customer>
    var customerForm: Form
    var formErrors: map<Field, string>

    ghost predicate Valid()
      reads this
    {
      currentPage >= 1
    }

    /** The list as loaded from storage. */
    constructor(stored: seq<Customer>)
      ensures Valid()
      ensures customers == stored && searchTerm == "" && currentPage == 1 && !isDialogOpen
      ensures currentCustomer == None && customerForm == EmptyForm && formErrors == map[]
    {
      customers := stored;
      searchTerm := "";
      currentPage := 1;
      isDialogOpen := false;
      currentCustomer := None;
      customerForm := EmptyForm;
      formErrors := map[];
    }

    /** `handleFormChange`: only the edited field changes, and only its
        error is cleared, when it had one. */
    method HandleFormChange(field: Field, value: string)
      modifies this
      ensures customerForm == WithField(old(customerForm), field, value)
      ensures formErrors == if field in old(formErrors) && old(formErrors)[field] != "" then old(formErrors)[field := ""] else old(formErrors)
      ensures forall other :: other != field && other in old(formErrors) ==> other in formErrors && formErrors[other] == old(formErrors)[other]
      ensures customers == old(customers) && currentCustomer == old(currentCustomer) && isDialogOpen == old(isDialogOpen)
      ensures searchTerm == old(searchTerm) && currentPage == old(currentPage)
    {
      customerForm := WithField(customerForm, field, value);
      if field in formErrors && formErrors[field] != "" {
        formErrors := formErrors[field := ""];
      }
    }

    /** `validateForm`: records the errors and says whether there were none. */
    method ValidateForm() returns (ok: bool)
      modifies this
      ensures ok <==> ValidForm(customerForm)
      ensures ok <==> formErrors == map[]
      ensures Name in formErrors <==> IsBlank(customerForm.name)
      ensures Name in formErrors ==> formErrors[Name] == NameRequired
      ensures Email in formErrors <==> IsBlank(customerForm.email) || !EmailShape(customerForm.email)
      ensures Email in formErrors ==> formErrors[Email] == if IsBlank(customerForm.email) then EmailRequired else EmailInvalid
      ensures Phone in formErrors <==> IsBlank(customerForm.phone)
      ensures Phone in formErrors ==> formErrors[Phone] == PhoneRequired
      ensures Address !in formErrors && Notes !in formErrors
      ensures customerForm == old(customerForm) && customers == old(customers) && currentCustomer == old(currentCustomer)
      ensures isDialogOpen == old(isDialogOpen) && searchTerm == old(searchTerm) && currentPage == old(currentPage)
    {
      var errors;
      errors, ok := CheckForm(customerForm);
      formErrors := errors;
    }

    method HandleAddCustomerClick()
      modifies this
      ensures currentCustomer == None && customerForm == EmptyForm && formErrors == map[] && isDialogOpen
      ensures customers == old(customers) && searchTerm == old(searchTerm) && currentPage == old(currentPage)
    {
      currentCustomer := None;
      customerForm := EmptyForm;
      formErrors := map[];
      isDialogOpen := true;
    }

    method HandleEditCustomerClick(c: Customer)
      modifies this
      ensures currentCustomer == Some(c) && customerForm == FormOf(c) && formErrors == map[] && isDialogOpen
      ensures customers == old(customers) && searchTerm == old(searchTerm) && currentPage == old(currentPage)
    {
      currentCustomer := Some(c);
      customerForm := FormOf(c);
      formErrors := map[];
      isDialogOpen := true;
    }

    /** `handleSaveCustomer`; `newId` is the `uuidv4()` a new customer gets.
        An invalid form changes no customer and keeps the dialog open. */
    method HandleSaveCustomer(newId: string)
      modifies this
      ensures !ValidForm(old(customerForm)) ==> customers == old(customers) && isDialogOpen == old(isDialogOpen) && formErrors != map[]
      ensures ValidForm(old(customerForm)) && old(currentCustomer).Some? ==>
        customers == Edited(old(customers), old(currentCustomer).value.id, old(customerForm)) && !isDialogOpen
      ensures ValidForm(old(customerForm)) && old(currentCustomer).None? ==>
        customers == old(customers) + [Apply(Customer(newId, "", "", "", "", ""), old(customerForm))] && !isDialogOpen
      ensures customerForm == old(customerForm) && currentCustomer == old(currentCustomer)
      ensures searchTerm == old(searchTerm) && currentPage == old(currentPage)
    {
      var ok := ValidateForm();
      if !ok {
        return;
      }
      if currentCustomer.Some? {
        customers := Edited(customers, currentCustomer.value.id, customerForm);
      } else {
        customers := customers + [Apply(Customer(newId, "", "", "", "", ""), customerForm)];
      }
      isDialogOpen := false;
    }

    /** `handleDeleteCustomer`; `confirmed` is the answer to `window.confirm`. */
    method HandleDeleteCustomer(id: string, confirmed: bool)
      modifies this
      ensures customers == if confirmed then Removed(old(customers), id) else old(customers)
      ensures customerForm == old(customerForm) && currentCustomer == old(currentCustomer) && formErrors == old(formErrors)
      ensures isDialogOpen == old(isDialogOpen) && searchTerm == old(searchTerm) && currentPage == old(currentPage)
    {
      if confirmed {
        customers := Removed(customers, id);
      }
    }

    /** Typing in the search box; back to page 1 when the term changed. */
    method SetSearchTerm(term: string)
      requires Valid()
      modifies this
      ensures Valid()
      ensures searchTerm == term && customers == old(customers)
      ensures currentPage == if term == old(searchTerm) then old(currentPage) else 1
      ensures customerForm == old(customerForm) && currentCustomer == old(currentCustomer)
      ensures formErrors == old(formErrors) && isDialogOpen == old(isDialogOpen)
    {
      if term != searchTerm {
        searchTerm := term;
        currentPage := 1;
      }
    }

    function Shown(): seq<Customer>
      reads this
    {
      Filtered(customers, searchTerm)
    }

    /** The four page buttons, shown when there are more than eight
        matches; each is disabled on the page it would not leave. */
    method FirstPage()
      requires Valid() && |Shown()| > ItemsPerPage && currentPage != 1
      modifies this
      ensures Valid() && currentPage == 1
      ensures customers == old(customers) && searchTerm == old(searchTerm)
      ensures customerForm == old(customerForm) && currentCustomer == old(currentCustomer)
      ensures formErrors == old(formErrors) && isDialogOpen == old(isDialogOpen)
    {
      currentPage := 1;
    }

    method PreviousPageClick()
      requires Valid() && |Shown()| > ItemsPerPage && currentPage != 1
      modifies this
      ensures Valid() && currentPage == PreviousPage(old(currentPage))
      ensures customers == old(customers) && searchTerm == old(searchTerm)
      ensures customerForm == old(customerForm) && currentCustomer == old(currentCustomer)
      ensures formErrors == old(formErrors) && isDialogOpen == old(isDialogOpen)
    {
      currentPage := PreviousPage(currentPage);
    }

    method NextPageClick()
      requires Valid() && |Shown()| > ItemsPerPage && currentPage != TotalPages(Shown())
      modifies this
      ensures Valid() && currentPage == NextPage(old(currentPage), TotalPages(Shown()))
      ensures customers == old(customers) && searchTerm == old(searchTerm)
      ensures customerForm == old(customerForm) && currentCustomer == old(currentCustomer)
      ensures formErrors == old(formErrors) && isDialogOpen == old(isDialogOpen)
    {
      PageCountSpec(|Shown()|, ItemsPerPage);
      currentPage := NextPage(currentPage, TotalPages(Shown()));
    }

    method LastPage()
      requires Valid() && |Shown()| > ItemsPerPage && currentPage != TotalPages(Shown())
      modifies this
      ensures Valid() && currentPage == TotalPages(Shown())
      ensures customers == old(customers) && searchTerm == old(searchTerm)
      ensures customerForm == old(customerForm) && currentCustomer == old(currentCustomer)
      ensures formErrors == old(formErrors) && isDialogOpen == old(isDialogOpen)
    {
      PageCountSpec(|Shown()|, ItemsPerPage);
      currentPage := TotalPages(Shown());
    }
  }
}
