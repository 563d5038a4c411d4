/** The customers page: the search filter over the customer list and the
    state of the create/edit modal (which customer is being edited, the
    four form fields, and whether the modal is open). */
module CustomersPage {
  import opened Wrappers
  import opened Text
  import opened Seqs

  datatype Customer = Customer(id: string, name: string, ico: string, dic: Option<string>, address: string)

  /** The search test: the lower-cased name contains the lower-cased term,
      or the registration number contains the term as typed. */
  predicate Matches(c: Customer, term: string) {
    Includes(ToLower(c.name), ToLower(term)) || Includes(c.ico, term)
  }

  /** `filteredCustomers`. */
  function FilterCustomers(customers: seq<Customer>, term: string): (r: seq<Customer>)
    ensures forall c :: c in r <==> c in customers && Matches(c, term)
    ensures IsSubsequence(r, customers)
  {
    FilterIsSubsequence(customers, c => Matches(c, term));
    Filter(customers, c => Matches(c, term))
  }

  /** An empty search keeps every customer. */
  lemma EmptyTermKeepsAll(customers: seq<Customer>)
    ensures FilterCustomers(customers, "") == customers
  {
    forall c | c in customers ensures Matches(c, "") {
      IncludesEmpty(c.ico);
    }
    FilterAll(customers, c => Matches(c, ""));
  }

  /** The four fields of the modal's form. */
  datatype CustomerFields = CustomerFields(name: string, ico: string, dic: string, address: string)

  const EmptyFields := CustomerFields("", "", "", "")

  datatype PageState = PageState(isModalOpen: bool, editing: Option<Customer>, form: CustomerFields)

  /** `handleEdit(customer)`: remember the customer, copy its fields into
      the form (a missing DIČ as ''), open the modal. */
  function HandleEdit(st: PageState, c: Customer): (r: PageState)
    ensures r.isModalOpen && r.editing == Some(c)
    ensures r.form.name == c.name && r.form.ico == c.ico && r.form.address == c.address
    ensures r.form.dic == (if c.dic.Some? then c.dic.value else "")
  {
    PageState(true, Some(c), CustomerFields(c.name, c.ico, c.dic.GetOr(""), c.address))
  }

  /** `handleCloseModal`. */
  function CloseModal(st: PageState): (r: PageState)
    ensures !r.isModalOpen && r.editing.None? && r.form == CustomerFields("", "", "", "")
  {
    PageState(false, None, EmptyFields)
  }

  /** The request the submit handler sends. */
  datatype Request = Update(id: string, fields: CustomerFields) | Create(fields: CustomerFields)

  /** `handleSubmit`: an update of the edited customer, or a create.  When
      the request succeeds the modal closes and the form is reset; when it
      fails the state is kept. */
  function HandleSubmit(st: PageState, succeeded: bool): (r: (Request, PageState))
    ensures st.editing.Some? <==> r.0.Update?
    ensures st.editing.Some? ==> r.0 == Update(st.editing.value.id, st.form)
    ensures r.0.fields == st.form
    ensures succeeded ==> r.1 == CloseModal(st)
    ensures !succeeded ==> r.1 == st
  {
    var request := if st.editing.Some? then Update(st.editing.value.id, st.form) else Create(st.form);
    (request, if succeeded then PageState(false, None, EmptyFields) else st)
  }

  /** Editing a customer and saving without changes sends its own fields
      back to its own id, a missing DIČ as ''. */
  lemma EditThenSave(st: PageState, c: Customer)
    ensures HandleSubmit(HandleEdit(st, c), true).0
         == Update(c.id, CustomerFields(c.name, c.ico, c.dic.GetOr(""), c.address))
  {
  }

  /** Closing forgets an edit: after a close the next submit is a create. */
  lemma CloseForgetsEdit(st: PageState, c: Customer, succeeded: bool)
    ensures HandleSubmit(CloseModal(HandleEdit(st, c)), succeeded).0 == Create(EmptyFields)
  {
  }
}
