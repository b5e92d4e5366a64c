/**
 * The create-listing page. `handleCreate` sends a signed-out visitor to the
 * login page, refuses a blank address and then a blank postal code, and
 * otherwise inserts one published `listings` row built from the form. After a
 * successful insert it moves on to the photo page of the new listing.
 */
module CreateListing {
  import opened Wrappers
  import JsText

  // ---------------------------------------------------------------------------
  // The form and the row built from it
  // ---------------------------------------------------------------------------

  /**
   * A JavaScript number: a finite value, `NaN`, or an infinity. The page turns
   * text into numbers with `Number(text)`; the model does not implement that
   * parse but takes it as a parameter `num: string -> JsNumber`, so different
   * texts may give the same number (`"1200"`, `"1200.0"` and `" 1200 "` do).
   */
  datatype JsNumber = Finite(value: real) | NaN | Infinity(negative: bool)

  /** The form's state: every input is text, the coordinates come from the address picker. */
  datatype ListingForm = ListingForm(
    title: string, description: string,
    priceMonthly: string, beds: string, baths: string,
    bedroomSqft: string, apartmentSqft: string,
    addressText: string, city: string, state: string, postalCode: string,
    lat: Option<real>, lng: Option<real>)

  /** The form as the page first renders it: price 1200, one bed, one bath, the rest empty. */
  const InitialForm: ListingForm := ListingForm("", "", "1200", "1", "1", "", "", "", "", "", "", None, None)

  /** The object `handleCreate` inserts into `listings`. */
  datatype ListingRow = ListingRow(
    ownerId: string, title: string, description: string,
    priceMonthly: JsNumber, beds: JsNumber, baths: JsNumber,
    bedroomSqft: Option<JsNumber>, apartmentSqft: Option<JsNumber>,
    addressText: string, city: string, state: string, postalCode: string, country: string,
    lat: Option<real>, lng: Option<real>,
    status: string, publishedAt: string)

  const Country: string := "United States"
  const PublishedStatus: string := "published"

  /** `text ? Number(text) : null`: only the empty string is falsy. */
  function OptionalNumber(text: string, num: string -> JsNumber): Option<JsNumber>
  {
    if text == "" then None else Some(num(text))
  }

  /** The row for `ownerId`, stamped with the time `now` (`new Date().toISOString()`), numbers parsed by `num`. */
  function Row(ownerId: string, form: ListingForm, now: string, num: string -> JsNumber): ListingRow
  {
    ListingRow(
      ownerId, form.title, form.description,
      num(form.priceMonthly), num(form.beds), num(form.baths),
      OptionalNumber(form.bedroomSqft, num), OptionalNumber(form.apartmentSqft, num),
      form.addressText, form.city, form.state, form.postalCode, Country,
      form.lat, form.lng,
      PublishedStatus, now)
  }

  /** A row published by `ownerId` at `now`, in the United States. */
  predicate PublishedBy(row: ListingRow, ownerId: string, now: string)
  {
    row.ownerId == ownerId && row.country == Country && row.status == PublishedStatus && row.publishedAt == now
  }

  /** The text columns of `row` are the form's fields, unchanged. */
  predicate TextColumnsOf(row: ListingRow, form: ListingForm)
  {
    && row.title == form.title && row.description == form.description
    && row.addressText == form.addressText && row.city == form.city
    && row.state == form.state && row.postalCode == form.postalCode
    && row.lat == form.lat && row.lng == form.lng
  }

  /**
   * The column of a square-footage field: `null` exactly when the field is
   * empty, and otherwise `Number` of the field.
   */
  predicate SqftColumn(column: Option<JsNumber>, field: string, num: string -> JsNumber)
  {
    (column == None <==> field == "") && (column != None ==> column.value == num(field))
  }

  /**
   * The inserted row, column by column: the text columns and the coordinates
   * are the form's; price, beds and baths are `Number` of their fields; each
   * square footage is `null` exactly when its field is empty and otherwise
   * `Number` of it; the row is the signed-in user's, published at `now`, in
   * the United States.
   */
  lemma RowColumns(ownerId: string, form: ListingForm, now: string, num: string -> JsNumber)
    ensures var row := Row(ownerId, form, now, num);
      && TextColumnsOf(row, form)
      && row.priceMonthly == num(form.priceMonthly) && row.beds == num(form.beds) && row.baths == num(form.baths)
      && SqftColumn(row.bedroomSqft, form.bedroomSqft, num)
      && SqftColumn(row.apartmentSqft, form.apartmentSqft, num)
      && PublishedBy(row, ownerId, now)
  {
  }

  /**
   * Two forms give the same row exactly when their text fields agree, their
   * numeric fields parse to the same numbers, and their square-footage fields
   * are empty together: the row records parsed numbers, not what was typed.
   */
  lemma SameRow(ownerId: string, f: ListingForm, g: ListingForm, now: string, num: string -> JsNumber)
    ensures Row(ownerId, f, now, num) == Row(ownerId, g, now, num) <==>
      && TextColumnsOf(Row(ownerId, f, now, num), g)
      && num(f.priceMonthly) == num(g.priceMonthly) && num(f.beds) == num(g.beds) && num(f.baths) == num(g.baths)
      && OptionalNumber(f.bedroomSqft, num) == OptionalNumber(g.bedroomSqft, num)
      && OptionalNumber(f.apartmentSqft, num) == OptionalNumber(g.apartmentSqft, num)
  {
  }

  // ---------------------------------------------------------------------------
  // The checks before publishing
  // ---------------------------------------------------------------------------

  const AddressRequired: string := "\U{274C} Address is required."
  const PostalCodeRequired: string := "\U{274C} Postal code is required."
  const ListingPublished: string := "\U{2705} Listing published."

  /** What `handleCreate` decides before it talks to the table. */
  datatype Check = SignIn | Invalid(message: string) | Ready(row: ListingRow)

  /** The guards in source order: signed in, then `addressText.trim()`, then `postalCode.trim()`. */
  function Prepare(user: Option<string>, form: ListingForm, now: string, num: string -> JsNumber): Check
  {
    if user == None then SignIn
    else if JsText.Trim(form.addressText) == "" then Invalid(AddressRequired)
    else if JsText.Trim(form.postalCode) == "" then Invalid(PostalCodeRequired)
    else Ready(Row(user.value, form, now, num))
  }

  /**
   * A signed-out visitor is sent to sign in whatever the form holds; a blank
   * address (only whitespace) is reported before a blank postal code; the row
   * is ready exactly when neither is blank.
   */
  lemma PrepareGuards(user: Option<string>, form: ListingForm, now: string, num: string -> JsNumber)
    ensures Prepare(user, form, now, num) == SignIn <==> user == None
    ensures Prepare(user, form, now, num) == Invalid(AddressRequired) <==> user != None && JsText.Blank(form.addressText)
    ensures Prepare(user, form, now, num) == Invalid(PostalCodeRequired) <==>
      user != None && !JsText.Blank(form.addressText) && JsText.Blank(form.postalCode)
    ensures Prepare(user, form, now, num).Ready? <==>
      user != None && !JsText.Blank(form.addressText) && !JsText.Blank(form.postalCode)
    ensures Prepare(user, form, now, num).Ready? ==> Prepare(user, form, now, num).row == Row(user.value, form, now, num)
  {
    JsText.TrimEmptyIffBlank(form.addressText);
    JsText.TrimEmptyIffBlank(form.postalCode);
  }

  // ---------------------------------------------------------------------------
  // The listings table
  // ---------------------------------------------------------------------------

  /** A row as the table holds it, under the id the database generated for it. */
  datatype StoredListing = StoredListing(id: string, row: ListingRow)

  class ListingTable {
    var rows: seq<StoredListing>
    /** The error every insert gets when the table refuses inserts (row-level security, a failed constraint). */
    const refusal: Option<Error>

    constructor(rows: seq<StoredListing>, refusal: Option<Error>)
      ensures this.rows == rows && this.refusal == refusal
    {
      this.rows := rows;
      this.refusal := refusal;
    }

    /** `insert([row]).select('id').single()`, where `id` is the id the database generates. */
    method Insert(row: ListingRow, id: string) returns (result: Result<string, Error>)
      modifies this
      ensures refusal != None ==> result == Err(refusal.value) && rows == old(rows)
      ensures refusal == None ==> result == Ok(id) && rows == old(rows) + [StoredListing(id, row)]
    {
      if refusal != None {
        result := Err(refusal.value);
      } else {
        rows := rows + [StoredListing(id, row)];
        result := Ok(id);
      }
    }
  }

  // ---------------------------------------------------------------------------
  // handleCreate
  // ---------------------------------------------------------------------------

  /** `err?.message ?? 'Something went wrong.'`. */
  function ErrorText(e: Error): string
  {
    e.message.GetOr("Something went wrong.")
  }

  /** The photo page of a freshly created listing. */
  function PhotosPage(id: string): string
  {
    "/create/photos?listingId=" + id
  }

  /** What one submission leaves behind: the message, the navigation, the row inserted. */
  datatype Outcome = Outcome(msg: Option<string>, navigation: Option<string>, inserted: Option<ListingRow>)

  /** The outcome of `handleCreate` against a table that answers inserts with `refusal`. */
  function Submit(user: Option<string>, form: ListingForm, now: string, num: string -> JsNumber, refusal: Option<Error>, id: string): Outcome
  {
    match Prepare(user, form, now, num)
    case SignIn => Outcome(None, Some("/login"), None)
    case Invalid(message) => Outcome(Some(message), None, None)
    case Ready(row) =>
      if refusal != None then Outcome(Some(ErrorText(refusal.value)), None, None)
      else Outcome(Some(ListingPublished), Some(PhotosPage(id)), Some(row))
  }

  /**
   * A row is inserted exactly when someone is signed in, neither the address
   * nor the postal code is blank, and the table accepts it; that row is the
   * signed-in user's published row built from the form. A submission moves on to the
   * new listing's photo page exactly when it inserted, and to the login page
   * exactly when no one is signed in.
   */
  lemma SubmitOutcomes(user: Option<string>, form: ListingForm, now: string, num: string -> JsNumber, refusal: Option<Error>, id: string)
    ensures var out := Submit(user, form, now, num, refusal, id);
      out.inserted != None <==>
        user != None && !JsText.Blank(form.addressText) && !JsText.Blank(form.postalCode) && refusal == None
    ensures var out := Submit(user, form, now, num, refusal, id);
      out.inserted != None ==>
        out.inserted.value == Row(user.value, form, now, num) && PublishedBy(out.inserted.value, user.value, now)
        && out.msg == Some(ListingPublished)
    ensures var out := Submit(user, form, now, num, refusal, id);
      out.inserted != None <==> out.navigation == Some(PhotosPage(id))
    ensures var out := Submit(user, form, now, num, refusal, id);
      out.navigation == Some("/login") <==> user == None
  {
    PrepareGuards(user, form, now, num);
    if user != None {
      RowColumns(user.value, form, now, num);
    }
    assert PhotosPage(id)[1] == 'c';
  }

  /** The page's state: the form, the busy flag, the message line and the last navigation. */
  class CreateListingPage {
    const table: ListingTable
    /** `Number`, as the page's JavaScript engine parses text. */
    const num: string -> JsNumber
    var form: ListingForm
    var loading: bool
    var msg: Option<string>
    /** The last `router.replace` or `router.push` target. */
    var navigation: Option<string>

    constructor(table: ListingTable, num: string -> JsNumber)
      ensures this.table == table && this.num == num && form == InitialForm && !loading && msg == None && navigation == None
    {
      this.table := table;
      this.num := num;
      form := InitialForm;
      loading := false;
      msg := None;
      navigation := None;
    }

    /** The inputs' `onChange` handlers, all at once. */
    method Edit(form: ListingForm)
      modifies this
      ensures this.form == form
      ensures loading == old(loading) && msg == old(msg) && navigation == old(navigation)
    {
      this.form := form;
    }

    /**
     * `handleCreate` with `user` signed in (or not), at time `now`, where `id` is
     * the id the database assigns to an inserted row. Whatever the path,
     * `loading` ends false and the form keeps its fields: the code that would
     * clear them comes after the `return` and never runs.
     */
    method HandleCreate(user: Option<string>, now: string, id: string)
      modifies this, table
      ensures var out := Submit(user, old(form), now, num, table.refusal, id);
        msg == out.msg
        && navigation == (if out.navigation == None then old(navigation) else out.navigation)
        && table.rows == old(table.rows) + (if out.inserted == None then [] else [StoredListing(id, out.inserted.value)])
      ensures form == old(form) && !loading
    {
      ghost var out := Submit(user, form, now, num, table.refusal, id);
      msg := None;
      loading := true;
      if user == None {
        assert out == Outcome(None, Some("/login"), None);
        navigation := Some("/login");
        loading := false;
        return;
      }
      var ownerId := user.value;
      if JsText.Trim(form.addressText) == "" {
        assert out == Outcome(Some(AddressRequired), None, None);
        msg := Some(AddressRequired);
        loading := false;
        return;
      }
      if JsText.Trim(form.postalCode) == "" {
        assert out == Outcome(Some(PostalCodeRequired), None, None);
        msg := Some(PostalCodeRequired);
        loading := false;
        return;
      }
      var row := Row(ownerId, form, now, num);
      assert Prepare(user, form, now, num) == Ready(row);
      var result := table.Insert(row, id);
      if result.Err? {
        assert out == Outcome(Some(ErrorText(result.error)), None, None);
        msg := Some(ErrorText(result.error));
        loading := false;
        return;
      }
      assert out == Outcome(Some(ListingPublished), Some(PhotosPage(id)), Some(row));
      msg := Some(ListingPublished);
      navigation := Some(PhotosPage(result.value));
      loading := false;
    }
  }
}
