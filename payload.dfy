/** The contact-creation form's submit rule: a submission without an email
    is rejected, otherwise the body of the creation request is assembled
    key by key from the form's inputs. */
module ContactPayload {
  import opened Values
  import opened CustomFields

  /** The five choices of the form's status box. */
  datatype ContactStatus = Subscribed | Pending | Unsubscribed | Bounced | Complained

  const StatusOptions: seq<string> := ["subscribed", "pending", "unsubscribed", "bounced", "complained"]

  /** The text the status box submits for a status. */
  function StatusName(s: ContactStatus): (name: string)
    ensures name in StatusOptions
  {
    match s
    case Subscribed => "subscribed"
    case Pending => "pending"
    case Unsubscribed => "unsubscribed"
    case Bounced => "bounced"
    case Complained => "complained"
  }

  /** Everything the form collected. The text inputs hold "" when left
      empty; `dateOfBirth` is the chosen date already formatted as
      YYYY-MM-DD, None when no date was chosen; `tags` and `lists` are the
      ids picked in the two multi-selects; `customValues` is the result of
      the custom-field loop. */
  datatype ContactForm = ContactForm(
    prefix: string,
    firstName: string,
    lastName: string,
    email: string,
    phone: string,
    dateOfBirth: Option<string>,
    addressLine1: string,
    addressLine2: string,
    city: string,
    state: string,
    postalCode: string,
    country: string,
    status: ContactStatus,
    tags: seq<Value>,
    lists: seq<Value>,
    customValues: map<Value, Slot>)

  /** The keys of the request body. */
  datatype BodyKey =
    | Email | Status | FirstName | LastName | Prefix | Phone | AddressLine1 | AddressLine2
    | City | State | PostalCode | Country | DateOfBirth | Tags | Lists | CustomValues

  /** The JSON name of a body key. */
  function KeyName(k: BodyKey): string
  {
    match k
    case Email => "email"
    case Status => "status"
    case FirstName => "first_name"
    case LastName => "last_name"
    case Prefix => "prefix"
    case Phone => "phone"
    case AddressLine1 => "address_line_1"
    case AddressLine2 => "address_line_2"
    case City => "city"
    case State => "state"
    case PostalCode => "postal_code"
    case Country => "country"
    case DateOfBirth => "date_of_birth"
    case Tags => "tags"
    case Lists => "lists"
    case CustomValues => "custom_values"
  }

  /** Different keys have different JSON names, so the body never has two
      entries under one name. */
  lemma KeyNamesDistinct(k1: BodyKey, k2: BodyKey)
    requires k1 != k2
    ensures KeyName(k1) != KeyName(k2)
  {
  }

  /** One entry of the request body. */
  datatype PayloadValue = Text(text: string) | Ids(ids: seq<Value>) | Custom(slots: map<Value, Slot>)

  /** The outcome of pressing "Create Contact": an error shown instead of a
      request, or the body of the POST that creates the contact. */
  datatype Submission = Rejected(message: string) | Accepted(payload: map<BodyKey, PayloadValue>)

  /** The keys every accepted body carries, whatever their values. */
  const RequiredKeys: set<BodyKey> :=
    {Email, Status, FirstName, LastName, Prefix, Phone, AddressLine1, AddressLine2, City, State, PostalCode, Country}

  /** The form input a required key takes its text from. */
  function TextInput(form: ContactForm, k: BodyKey): string
    requires k in RequiredKeys
  {
    match k
    case Email => form.email
    case Status => StatusName(form.status)
    case FirstName => form.firstName
    case LastName => form.lastName
    case Prefix => form.prefix
    case Phone => form.phone
    case AddressLine1 => form.addressLine1
    case AddressLine2 => form.addressLine2
    case City => form.city
    case State => form.state
    case PostalCode => form.postalCode
    case Country => form.country
  }

  /** `body` holds every required key with the text of its input. */
  ghost predicate HasRequiredEntries(body: map<BodyKey, PayloadValue>, form: ContactForm)
  {
    forall k :: k in RequiredKeys ==> k in body && body[k] == Text(TextInput(form, k))
  }

  /** Adding a key that is not required keeps the required entries. */
  lemma AddingOptionalKeepsRequired(body: map<BodyKey, PayloadValue>, form: ContactForm, k: BodyKey, v: PayloadValue)
    requires HasRequiredEntries(body, form)
    requires k !in RequiredKeys
    ensures HasRequiredEntries(body[k := v], form)
  {
  }

  /** The submit rule. An empty email (no trimming: a blank-but-nonempty
      email passes) rejects the submission and nothing is sent. Otherwise
      the body holds email, status and the ten text fields even when they
      are empty, plus date_of_birth, tags, lists and custom_values exactly
      when a date was chosen, a tag or list was picked, or some custom
      field got a slot. */
  method AssembleSubmission(form: ContactForm) returns (sub: Submission)
    ensures sub.Rejected? <==> form.email == ""
    ensures sub.Rejected? ==> sub.message == "Email is required"
    ensures sub.Accepted? ==>
      var body := sub.payload;
      && HasRequiredEntries(body, form)
      && (DateOfBirth in body <==> form.dateOfBirth.Some?)
      && (form.dateOfBirth.Some? ==> body[DateOfBirth] == Text(form.dateOfBirth.value))
      && (Tags in body <==> form.tags != [])
      && (form.tags != [] ==> body[Tags] == Ids(form.tags))
      && (Lists in body <==> form.lists != [])
      && (form.lists != [] ==> body[Lists] == Ids(form.lists))
      && (CustomValues in body <==> form.customValues != map[])
      && (form.customValues != map[] ==> body[CustomValues] == Custom(form.customValues))
  {
    if form.email == "" {
      return Rejected("Email is required");
    }
    // The twelve entries of the initial dictionary literal, one per required key.
    var body := map k | k in RequiredKeys :: Text(TextInput(form, k));
    assert DateOfBirth !in body && Tags !in body && Lists !in body && CustomValues !in body;
    assert HasRequiredEntries(body, form);
    if form.dateOfBirth.Some? {
      AddingOptionalKeepsRequired(body, form, DateOfBirth, Text(form.dateOfBirth.value));
      body := body[DateOfBirth := Text(form.dateOfBirth.value)];
    }
    if form.tags != [] {
      AddingOptionalKeepsRequired(body, form, Tags, Ids(form.tags));
      body := body[Tags := Ids(form.tags)];
    }
    if form.lists != [] {
      AddingOptionalKeepsRequired(body, form, Lists, Ids(form.lists));
      body := body[Lists := Ids(form.lists)];
    }
    if form.customValues != map[] {
      AddingOptionalKeepsRequired(body, form, CustomValues, Custom(form.customValues));
      body := body[CustomValues := Custom(form.customValues)];
    }
    sub := Accepted(body);
  }
}
