/** The request-body rule sets run before the login, registration,
    listing, booking and review handlers. Each rule set is a function from
    a request body to the list of messages of the rules it breaks, in rule
    order; an empty list lets the request through. The e-mail check and
    the database-id check are library predicates, taken as parameters. */
module Validators {
  import opened Common
  import opened Text
  import Listings
  import Reviews

  /** The value a rule sees: a missing field reads as the empty string. */
  function AsText(field: Option<string>): string {
    if field.None? then "" else field.value
  }

  /** One rule: no message when it holds, its message otherwise. */
  function Rule(holds: bool, message: string): (r: seq<string>)
    ensures r == [] <==> holds
    ensures !holds ==> r == [message]
  {
    if holds then [] else [message]
  }

  /** The rules on a trimmed field that must be present and at least
      `min` long: the "required" message when it is empty, the length
      message when it is short (an empty field gets both). */
  function RequiredMinLength(t: string, min: nat, missing: string, short: string): (r: seq<string>)
    requires min >= 1
    ensures r == [] <==> |t| >= min
    ensures t == "" ==> r == [missing, short]
  {
    Rule(t != "", missing) + Rule(|t| >= min, short)
  }

  // ---- the password pattern /^(?=.*[a-z])(?=.*[A-Z])(?=.*\d)/ ----------

  /** No line terminator occurs before position `k`. */
  predicate NoBreakBefore(s: string, k: int) {
    forall j :: 0 <= j < k && j < |s| ==> !IsLineTerminator(s[j])
  }

  /** What a lookahead `(?=.*[kind])` at the start of `s` asks: some
      character of the kind occurs with no line terminator before it,
      since `.` does not match one. */
  predicate Reaches(s: string, kind: char -> bool) {
    exists k :: 0 <= k < |s| && kind(s[k]) && NoBreakBefore(s, k)
  }

  /** The lookahead as a matcher runs it: take the kind character here,
      or step over a character `.` matches and try again. */
  predicate ScanFor(s: string, kind: char -> bool) {
    s != [] && (kind(s[0]) || (!IsLineTerminator(s[0]) && ScanFor(s[1..], kind)))
  }

  lemma {:induction false} ScanMeansReaches(s: string, kind: char -> bool)
    ensures ScanFor(s, kind) <==> Reaches(s, kind)
  {
    if s != [] {
      ScanMeansReaches(s[1..], kind);
      if ScanFor(s, kind) && !kind(s[0]) {
        var k :| 0 <= k < |s[1..]| && kind(s[1..][k]) && NoBreakBefore(s[1..], k);
        assert kind(s[k + 1]) && NoBreakBefore(s, k + 1);
      }
      if Reaches(s, kind) && !kind(s[0]) {
        var k :| 0 <= k < |s| && kind(s[k]) && NoBreakBefore(s, k);
        assert k > 0 && !IsLineTerminator(s[0]);
        assert kind(s[1..][k - 1]) && NoBreakBefore(s[1..], k - 1);
      }
    }
  }

  /** The registration password pattern. */
  predicate PasswordPattern(s: string) {
    ScanFor(s, IsLower) && ScanFor(s, IsUpper) && ScanFor(s, IsDigit)
  }

  /** The pattern holds exactly when a lower-case letter, an upper-case
      letter and a digit all occur before the first line break. */
  lemma PasswordPatternMeans(s: string)
    ensures PasswordPattern(s) <==> Reaches(s, IsLower) && Reaches(s, IsUpper) && Reaches(s, IsDigit)
  {
    ScanMeansReaches(s, IsLower);
    ScanMeansReaches(s, IsUpper);
    ScanMeansReaches(s, IsDigit);
  }

  /** The scan gives up at a line terminator reached before any character
      of the kind. */
  lemma {:induction false} ScanStopsAtBreak(s: string, kind: char -> bool, k: nat)
    requires k < |s| && IsLineTerminator(s[k])
    requires forall j :: 0 <= j <= k ==> !kind(s[j])
    ensures !ScanFor(s, kind)
  {
    if k > 0 {
      ScanStopsAtBreak(s[1..], kind, k - 1);
    }
  }

  /** Characters after a line break do not count: this password has all
      three kinds, yet the pattern refuses it. */
  lemma PatternStopsAtLineBreak()
    ensures !PasswordPattern("abcdef\nXY12")
  {
    ScanStopsAtBreak("abcdef\nXY12", IsUpper, 6);
  }

  // ---- login and registration ----------------------------------------------

  datatype LoginBody = LoginBody(email: Option<string>, password: Option<string>)

  /** `loginValidator`. */
  function LoginErrors(b: LoginBody, isEmail: string -> bool): (r: seq<string>)
    ensures r == [] <==> isEmail(Trim(AsText(b.email))) && |AsText(b.password)| >= 6
    ensures "Password must be at least 6 characters" in r <==> |AsText(b.password)| < 6
  {
    Rule(isEmail(Trim(AsText(b.email))), "Invalid email address")
    + Rule(|AsText(b.password)| >= 6, "Password must be at least 6 characters")
  }

  datatype RegistrationBody = RegistrationBody(
    name: Option<string>, email: Option<string>, password: Option<string>, role: Option<string>)

  /** `registrationValidator`. The role may be left out; when given it
      must be one the user schema knows. */
  function RegistrationErrors(b: RegistrationBody, isEmail: string -> bool): (r: seq<string>)
    ensures r == [] <==> (
      && |Trim(AsText(b.name))| >= 2
      && isEmail(Trim(AsText(b.email)))
      && |AsText(b.password)| >= 6
      && Reaches(AsText(b.password), IsLower)
      && Reaches(AsText(b.password), IsUpper)
      && Reaches(AsText(b.password), IsDigit)
      && (b.role.Some? ==> b.role.value in Roles))
    ensures Trim(AsText(b.name)) == "" ==> "Name is required" in r && "Name must be at least 2 characters" in r
  {
    PasswordPatternMeans(AsText(b.password));
    var password := AsText(b.password);
    RequiredMinLength(Trim(AsText(b.name)), 2, "Name is required", "Name must be at least 2 characters")
    + Rule(isEmail(Trim(AsText(b.email))), "Invalid email address")
    + Rule(|password| >= 6, "Password must be at least 6 characters")
    + Rule(PasswordPattern(password), "Password must contain uppercase, lowercase, and numbers")
    + (if b.role.None? then [] else Rule(b.role.value in Roles, "Invalid role"))
  }

  /** Every password registration accepts, login accepts too. */
  lemma RegistrationPasswordPassesLogin(b: RegistrationBody, isEmail: string -> bool)
    requires RegistrationErrors(b, isEmail) == []
    ensures LoginErrors(LoginBody(b.email, b.password), isEmail) == []
  {
  }

  // ---- listings --------------------------------------------------------------

  /** A listing request as the rules see it; the location's fields are
      flattened. A price is present when the field is a number. */
  datatype ListingForm = ListingForm(
    title: Option<string>,
    description: Option<string>,
    price: Option<int>,
    propertyType: Option<string>,
    address: Option<string>,
    city: Option<string>,
    state: Option<string>,
    pincode: Option<string>,
    owner: Option<string>,
    status: Option<string>)

  /** `^\d{5,6}$` */
  predicate IsPincode(s: string) {
    5 <= |s| <= 6 && AllDigits(s)
  }

  /** `^[0-9]{10}$` */
  predicate IsPhone(s: string) {
    |s| == 10 && AllDigits(s)
  }

  /** `realEstateValidator`. */
  function ListingErrors(f: ListingForm, isMongoId: string -> bool): (r: seq<string>)
    ensures r == [] <==> (
      && DetailsValid(f)
      && Trim(AsText(f.address)) != "" && Trim(AsText(f.city)) != "" && Trim(AsText(f.state)) != ""
      && IsPincode(Trim(AsText(f.pincode)))
      && isMongoId(AsText(f.owner))
      && (f.status.Some? ==> f.status.value in Listings.ListingStatuses))
  {
    DetailsErrors(f)
    + LocationErrors(f)
    + Rule(isMongoId(AsText(f.owner)), "Valid owner ID required")
    + (if f.status.None? then [] else Rule(f.status.value in Listings.ListingStatuses, "Invalid status"))
  }

  /** What the rules ask of the title, description, price and type. */
  predicate DetailsValid(f: ListingForm) {
    && |Trim(AsText(f.title))| >= 3
    && |Trim(AsText(f.description))| >= 10
    && f.price.Some? && f.price.value >= 0
    && AsText(f.propertyType) in Listings.PropertyTypes
  }

  /** The rules on the title, description, price and type. */
  function DetailsErrors(f: ListingForm): (r: seq<string>)
    ensures r == [] <==> DetailsValid(f)
  {
    RequiredMinLength(Trim(AsText(f.title)), 3, "Title is required", "Title must be at least 3 characters")
    + RequiredMinLength(Trim(AsText(f.description)), 10, "Description is required", "Description must be at least 10 characters")
    + Rule(f.price.Some? && f.price.value >= 0, "Price must be a positive number")
    + Rule(AsText(f.propertyType) in Listings.PropertyTypes, "Invalid property type")
  }

  /** The rules on the four location fields. */
  function LocationErrors(f: ListingForm): (r: seq<string>)
    ensures r == [] <==> (
      && Trim(AsText(f.address)) != "" && Trim(AsText(f.city)) != "" && Trim(AsText(f.state)) != ""
      && IsPincode(Trim(AsText(f.pincode))))
  {
    Rule(Trim(AsText(f.address)) != "", "Address is required")
    + Rule(Trim(AsText(f.city)) != "", "City is required")
    + Rule(Trim(AsText(f.state)) != "", "State is required")
    + Rule(IsPincode(Trim(AsText(f.pincode))), "Invalid pincode format")
  }

  /** The body the listing handler would receive were the rule set
      mounted before it: the trimming rules have trimmed their fields in
      place, and the owner is the database id the `owner` field names
      (`idOf` reads it). */
  function Sanitized(f: ListingForm, idOf: string -> Id): (b: Listings.ListingBody)
    ensures b.title == Some(Trim(AsText(f.title))) && b.description == Some(Trim(AsText(f.description)))
    ensures b.owner == Some(idOf(AsText(f.owner))) && b.price == f.price && b.status == f.status
    ensures b.propertyType == f.propertyType
    ensures b.location == Some(Listings.Location(
      Trim(AsText(f.address)), Trim(AsText(f.city)), Trim(AsText(f.state)), Trim(AsText(f.pincode))))
  {
    Listings.ListingBody(
      Some(Trim(AsText(f.title))),
      Some(Trim(AsText(f.description))),
      f.price,
      f.propertyType,
      Some(Listings.Location(
        Trim(AsText(f.address)), Trim(AsText(f.city)), Trim(AsText(f.state)), Trim(AsText(f.pincode)))),
      Some(idOf(AsText(f.owner))),
      f.status)
  }

  /** The listing rules are stricter than the schema: a request they
      accept, handed to the listing handler, is never refused by the
      schema, and the listing is created. */
  lemma {:induction false} AcceptedListingIsCreated(f: ListingForm, isMongoId: string -> bool, idOf: string -> Id)
    requires ListingErrors(f, isMongoId) == []
    ensures Listings.NewListing(Sanitized(f, idOf)).Ok?
  {
    assert DetailsValid(f);
    var title := Trim(AsText(f.title));
    TrimIdempotent(AsText(f.title));
    assert Trim(title) != "";
    assert f.propertyType.Some?;
    var b := Sanitized(f, idOf);
    assert b.title == Some(title) && b.description == Some(Trim(AsText(f.description)));
  }

  // ---- bookings --------------------------------------------------------------

  /** A booking request; `visitDate` is the instant the field names when
      it is a well-formed ISO 8601 date, and absent otherwise. */
  datatype BookingForm = BookingForm(
    property: Option<string>,
    user: Option<string>,
    fullName: Option<string>,
    email: Option<string>,
    phone: Option<string>,
    message: Option<string>,
    visitDate: Option<int>)

  /** `bookingValidator` at the instant `now`. */
  function BookingErrors(f: BookingForm, isMongoId: string -> bool, isEmail: string -> bool, now: int)
    : (r: seq<string>)
    ensures r == [] <==> (
      && isMongoId(AsText(f.property)) && isMongoId(AsText(f.user))
      && |Trim(AsText(f.fullName))| >= 2
      && isEmail(Trim(AsText(f.email)))
      && IsPhone(Trim(AsText(f.phone)))
      && |Trim(AsText(f.message))| >= 10
      && f.visitDate.Some? && f.visitDate.value >= now)
  {
    Rule(isMongoId(AsText(f.property)), "Valid property ID required")
    + Rule(isMongoId(AsText(f.user)), "Valid user ID required")
    + RequiredMinLength(Trim(AsText(f.fullName)), 2, "Full name is required", "Name must be at least 2 characters")
    + Rule(isEmail(Trim(AsText(f.email))), "Invalid email address")
    + Rule(IsPhone(Trim(AsText(f.phone))), "Phone must be 10 digits")
    + RequiredMinLength(Trim(AsText(f.message)), 10, "Message is required", "Message must be at least 10 characters")
    + VisitDateErrors(f.visitDate, now)
  }

  /** The visit-date rules: a well-formed date, not before `now`. */
  function VisitDateErrors(visitDate: Option<int>, now: int): (r: seq<string>)
    ensures r == [] <==> visitDate.Some? && visitDate.value >= now
    ensures "Visit date must be in the future" in r <==> visitDate.Some? && visitDate.value < now
  {
    Rule(visitDate.Some?, "Valid date format required")
    + Rule(!(visitDate.Some? && visitDate.value < now), "Visit date must be in the future")
  }

  /** A visit at the current instant itself is accepted; one a moment
      earlier is not. */
  lemma VisitDateBoundary(visit: int)
    ensures VisitDateErrors(Some(visit), visit) == []
    ensures VisitDateErrors(Some(visit), visit + 1) == ["Visit date must be in the future"]
  {
  }

  // ---- reviews ---------------------------------------------------------------

  /** A review request; `rating` is present when the field is an integer. */
  datatype ReviewForm = ReviewForm(
    property: Option<string>, user: Option<string>, rating: Option<int>, comment: Option<string>)

  /** `reviewValidator`, run before both creating and updating a review. */
  function ReviewErrors(f: ReviewForm, isMongoId: string -> bool): (r: seq<string>)
    ensures r == [] <==> (
      && isMongoId(AsText(f.property)) && isMongoId(AsText(f.user))
      && f.rating.Some? && 1 <= f.rating.value <= 5
      && |Trim(AsText(f.comment))| >= 5)
  {
    Rule(isMongoId(AsText(f.property)), "Valid property ID required")
    + Rule(isMongoId(AsText(f.user)), "Valid user ID required")
    + Rule(f.rating.Some? && 1 <= f.rating.value <= 5, "Rating must be between 1 and 5")
    + RequiredMinLength(Trim(AsText(f.comment)), 5, "Comment is required", "Comment must be at least 5 characters")
  }

  /** A review the rules accept meets the review schema, so behind these
      rules the handlers' schema refusal never fires. */
  lemma AcceptedReviewMeetsSchema(f: ReviewForm, isMongoId: string -> bool, property: Id, user: Id)
    requires ReviewErrors(f, isMongoId) == []
    ensures f.rating.Some?
    ensures Reviews.SchemaValid(Reviews.Review(property, user, f.rating.value, Trim(AsText(f.comment))))
  {
  }
}
