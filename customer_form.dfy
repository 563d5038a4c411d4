/** The customer form: how a stored customer is loaded into the form, the
    defaults of an empty form, the submit validation, and how the form is
    turned into the request body (blank optional fields become `null`). */
module CustomerForm {
  import opened Wrappers

  /** A stored customer; `None` is an absent (or `null`) optional field. */
  datatype Customer = Customer(
    id: string,
    name: string,
    ico: string,
    dic: Option<string>,
    address: string,
    defaultPrice: real,
    defaultCurrency: string,
    paymentTermsDays: Option<int>,
    contactName: Option<string>,
    contactEmail: Option<string>,
    contactPhone: Option<string>,
    showContactOnInvoice: bool)

  /** The form's state; a `paymentTermsDays` of `None` is the empty input
      `''`. */
  datatype FormData = FormData(
    name: string,
    ico: string,
    dic: string,
    address: string,
    defaultPrice: real,
    defaultCurrency: string,
    paymentTermsDays: Option<int>,
    contactName: string,
    contactEmail: string,
    contactPhone: string,
    showContactOnInvoice: bool)

  /** The form with no customer: price 1500 CZK, contact hidden, the rest
      empty. */
  const DefaultForm := FormData("", "", "", "", 1500.0, "CZK", None, "", "", "", false)

  /** `value || ''` on an optional string. */
  function OrEmpty(value: Option<string>): (r: string)
    ensures value.Some? ==> r == value.value
    ensures value.None? ==> r == ""
  {
    value.GetOr("")
  }

  /** `paymentTermsDays || ''`: absent and 0 both give the empty input. */
  function TermsInput(days: Option<int>): (r: Option<int>)
    ensures r.None? <==> days.None? || days.value == 0
    ensures r.Some? ==> r == days
  {
    if days.Some? && days.value != 0 then days else None
  }

  /** The effect on `customer`: load it, or reset to the defaults. */
  function LoadForm(customer: Option<Customer>): (f: FormData)
    ensures customer.None? ==> f == DefaultForm
    ensures customer.Some? ==>
      var c := customer.value;
      && f.name == c.name && f.ico == c.ico && f.address == c.address
      && f.dic == OrEmpty(c.dic)
      && f.defaultPrice == c.defaultPrice && f.defaultCurrency == c.defaultCurrency
      && f.paymentTermsDays == TermsInput(c.paymentTermsDays)
      && f.contactName == OrEmpty(c.contactName)
      && f.contactEmail == OrEmpty(c.contactEmail)
      && f.contactPhone == OrEmpty(c.contactPhone)
      && f.showContactOnInvoice == c.showContactOnInvoice
  {
    match customer
    case None => DefaultForm
    case Some(c) =>
      FormData(c.name, c.ico, OrEmpty(c.dic), c.address, c.defaultPrice, c.defaultCurrency,
               TermsInput(c.paymentTermsDays), OrEmpty(c.contactName), OrEmpty(c.contactEmail),
               OrEmpty(c.contactPhone), c.showContactOnInvoice)
  }

  /** The request body; `None` is `null`. */
  datatype Payload = Payload(
    name: string,
    ico: string,
    dic: string,
    address: string,
    defaultPrice: real,
    defaultCurrency: string,
    paymentTermsDays: Option<int>,
    contactName: Option<string>,
    contactEmail: Option<string>,
    contactPhone: Option<string>,
    showContactOnInvoice: bool)

  /** `value || null` on a string. */
  function OrNull(value: string): (r: Option<string>)
    ensures r.None? <==> value == ""
    ensures r.Some? ==> r.value == value
  {
    if value == "" then None else Some(value)
  }

  /** `dataToSend`: the form with the empty payment terms and blank
      contacts as `null`, every other field copied. */
  function DataToSend(f: FormData): (p: Payload)
    ensures p.paymentTermsDays == f.paymentTermsDays
    ensures p.contactName == OrNull(f.contactName)
    ensures p.contactEmail == OrNull(f.contactEmail)
    ensures p.contactPhone == OrNull(f.contactPhone)
    ensures p.name == f.name && p.ico == f.ico && p.dic == f.dic && p.address == f.address
    ensures p.defaultPrice == f.defaultPrice && p.defaultCurrency == f.defaultCurrency
    ensures p.showContactOnInvoice == f.showContactOnInvoice
  {
    Payload(f.name, f.ico, f.dic, f.address, f.defaultPrice, f.defaultCurrency,
            f.paymentTermsDays, OrNull(f.contactName), OrNull(f.contactEmail),
            OrNull(f.contactPhone), f.showContactOnInvoice)
  }

  /** The request the submit handler sends. */
  datatype Request = Update(id: string, payload: Payload) | Create(payload: Payload)

  /** `handleSubmit`: nothing is sent while the name, the registration
      number or the address is empty; otherwise an update when the
      customer has an id, else a create. */
  function Submit(customer: Option<Customer>, f: FormData): (r: Option<Request>)
    ensures r.None? <==> f.name == "" || f.ico == "" || f.address == ""
    ensures r.Some? ==> r.value.payload == DataToSend(f)
    ensures r.Some? ==> (r.value.Update? <==> customer.Some? && customer.value.id != "")
    ensures r.Some? && r.value.Update? ==> r.value.id == customer.value.id
  {
    if f.name == "" || f.ico == "" || f.address == "" then None
    else if customer.Some? && customer.value.id != "" then Some(Update(customer.value.id, DataToSend(f)))
    else Some(Create(DataToSend(f)))
  }

  /** The empty form cannot be submitted. */
  lemma DefaultFormRejected(customer: Option<Customer>)
    ensures Submit(customer, DefaultForm).None?
  {
  }

  /** Loading a customer and saving it unchanged sends back what was
      stored, except that a blank contact becomes `null` and payment terms
      of 0 days become `null`. */
  lemma LoadThenSend(c: Customer)
    ensures var p := DataToSend(LoadForm(Some(c)));
      && p.paymentTermsDays == (if c.paymentTermsDays == Some(0) then None else c.paymentTermsDays)
      && p.contactName == (if c.contactName == Some("") then None else c.contactName)
      && p.contactEmail == (if c.contactEmail == Some("") then None else c.contactEmail)
      && p.contactPhone == (if c.contactPhone == Some("") then None else c.contactPhone)
      && p.dic == OrEmpty(c.dic)
      && p.name == c.name && p.ico == c.ico && p.address == c.address
  {
  }

  /** A stored payment term of 0 days is resubmitted as `null`. */
  lemma ZeroTermsBecomeNull(c: Customer)
    requires c.paymentTermsDays == Some(0)
    ensures DataToSend(LoadForm(Some(c))).paymentTermsDays.None?
  {
  }
}
