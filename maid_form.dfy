/**
 * The pure parts of the maid-registration form,
 * client/src/components/become-maid-form.tsx: what the form schema accepts,
 * how `onSubmit` shapes the values into the payload for the maid API, and the
 * message it shows when submission throws.
 */
module MaidForm {
  import opened Wrappers
  import opened Schema
  import JsString

  /** The form's fields. */
  datatype FormValues = FormValues(
    name: string,
    email: string,
    phone: string,
    address: string,
    city: string,
    age: string,
    gender: string,
    experience: string,
    skillsSets: string,
    availabilityTime: string,
    availabilityDays: string,
    idType: string,
    idNumber: string,
    resume: Option<string>,
    privacyPolicy: bool,
    backgroundCheckConsent: bool)

  /**
   * The length and consent rules of `formSchema`. The e-mail format check is
   * the parameter `isEmail`; the fields that only have to be strings always are.
   */
  predicate FormSchemaAccepts(v: FormValues, isEmail: string -> bool) {
    && |v.name| >= 2
    && isEmail(v.email)
    && |v.phone| >= 10
    && |v.address| >= 5
    && |v.city| >= 2
    && |v.age| >= 1
    && |v.skillsSets| >= 1
    && |v.idNumber| >= 1
    && v.privacyPolicy
    && v.backgroundCheckConsent
  }

  /** `k` starts the last comma-separated segment of `s`. */
  ghost predicate LastSegmentStart(s: string, k: int) {
    0 <= k <= |s| && ',' !in s[k..] && (k == 0 || s[k - 1] == ',')
  }

  /** `t || 'Unknown'`: the empty string is falsy, every other string is kept. */
  function OrUnknown(t: string): (r: string)
    ensures r != ""
    ensures t != "" ==> r == t
    ensures t == "" ==> r == "Unknown"
  {
    if t == "" then "Unknown" else t
  }

  /** Trimming removes characters but adds none. */
  lemma {:induction false} TrimKeepsAbsent(s: string, c: char)
    requires c !in s
    ensures c !in JsString.Trim(s)
  {
    var t := JsString.Trim(s);
    var i: nat :| JsString.TrimmedSliceAt(s, t, i);
    forall j | 0 <= j < |t| ensures t[j] != c {
      assert t[j] == s[i + j];
    }
  }

  /** The last piece `l` of `split(',')` is the segment after the last comma. */
  lemma {:induction false} LastPieceStart(address: string, l: string)
    requires l == JsString.Last(JsString.Split(address, ','))
    ensures LastSegmentStart(address, |address| - |l|) && l == address[|address| - |l|..]
  {
    JsString.LastPieceIsSuffix(address, ',');
    var k := |address| - |l|;
    var suffix := address[k..];
    assert suffix == l;
    assert ',' !in suffix;
  }

  /** The trimmed last segment, or "Unknown", is clean and never empty. */
  lemma {:induction false} SegmentLocality(address: string, k: int, l: string)
    requires LastSegmentStart(address, k) && l == address[k..]
    ensures var r := OrUnknown(JsString.Trim(l));
      && r != "" && ',' !in r
      && !JsString.IsWhitespace(r[0]) && !JsString.IsWhitespace(r[|r| - 1])
      && exists k' :: LastSegmentStart(address, k') && r == OrUnknown(JsString.Trim(address[k'..]))
  {
    TrimKeepsAbsent(l, ',');
    OrUnknownIsClean(JsString.Trim(l));
  }

  /** The trimmed last piece, or "Unknown", is clean and is the trimmed last segment. */
  lemma {:induction false} LastPieceLocality(address: string)
    ensures var r := OrUnknown(JsString.Trim(JsString.Last(JsString.Split(address, ','))));
      && r != "" && ',' !in r
      && !JsString.IsWhitespace(r[0]) && !JsString.IsWhitespace(r[|r| - 1])
      && exists k :: LastSegmentStart(address, k) && r == OrUnknown(JsString.Trim(address[k..]))
  {
    var l := JsString.Last(JsString.Split(address, ','));
    LastPieceStart(address, l);
    SegmentLocality(address, |address| - |l|, l);
  }

  /** `t || 'Unknown'` of a clean trimmed string is clean and never empty. */
  lemma {:induction false} OrUnknownIsClean(t: string)
    requires ',' !in t
    requires t == [] || (!JsString.IsWhitespace(t[0]) && !JsString.IsWhitespace(t[|t| - 1]))
    ensures var r := OrUnknown(t);
      && r != "" && ',' !in r
      && !JsString.IsWhitespace(r[0]) && !JsString.IsWhitespace(r[|r| - 1])
  {
    UnknownIsClean();
  }

  /** `address.split(',').pop()?.trim() || 'Unknown'`. */
  function Locality(address: string): (r: string)
    ensures r != "" && ',' !in r
    ensures !JsString.IsWhitespace(r[0]) && !JsString.IsWhitespace(r[|r| - 1])
    ensures exists k :: LastSegmentStart(address, k) && r == OrUnknown(JsString.Trim(address[k..]))
  {
    LastPieceLocality(address);
    OrUnknown(JsString.Trim(JsString.Last(JsString.Split(address, ','))))
  }

  /** The fallback locality "Unknown" has no comma and no whitespace at either end. */
  lemma UnknownIsClean()
    ensures ',' !in "Unknown"
    ensures !JsString.IsWhitespace("Unknown"[0]) && !JsString.IsWhitespace("Unknown"[|"Unknown"| - 1])
  {
  }

  /** The last segment is unique: two starts of it are the same position. */
  lemma {:induction false} LastSegmentStartUnique(s: string, k1: int, k2: int)
    requires LastSegmentStart(s, k1) && LastSegmentStart(s, k2)
    ensures k1 == k2
  {
  }

  /** The locality is the trimmed text after the last comma, or "Unknown" when that is blank. */
  lemma {:induction false} LocalityOfSegment(address: string, k: int)
    requires LastSegmentStart(address, k)
    ensures Locality(address) == OrUnknown(JsString.Trim(address[k..]))
  {
    var r := Locality(address);
    var k' :| LastSegmentStart(address, k') && r == OrUnknown(JsString.Trim(address[k'..]));
    LastSegmentStartUnique(address, k, k');
  }

  /** An address without a comma gives the whole address, trimmed. */
  lemma {:induction false} LocalityWithoutComma(address: string)
    requires ',' !in address
    ensures Locality(address) == OrUnknown(JsString.Trim(address))
  {
    JsString.SplitWithoutSeparator(address, ',');
  }

  /** An address ending in a comma has an empty last segment: the locality is "Unknown". */
  lemma {:induction false} LocalityTrailingComma(address: string)
    requires |address| > 0 && address[|address| - 1] == ','
    ensures Locality(address) == "Unknown"
  {
    var n := |address|;
    assert address[n..] == "";
    assert LastSegmentStart(address, n);
    LocalityOfSegment(address, n);
  }

  /** Trimming a segment with one leading space and no other edge whitespace drops that space. */
  lemma {:induction false} TrimOneLeadingSpace(seg: string)
    requires |seg| >= 2 && seg[0] == ' '
    requires !JsString.IsWhitespace(seg[1]) && !JsString.IsWhitespace(seg[|seg| - 1])
    ensures JsString.Trim(seg) == seg[1..]
  {
    assert JsString.TrimStart(seg[1..]) == seg[1..];
    assert JsString.TrimStart(seg) == seg[1..];
    assert JsString.TrimEnd(seg[1..]) == seg[1..];
  }

  /** A seed address shows the rule at work. */
  lemma {:induction false} LocalityExample(a: string)
    requires a == "12 River Road, Koregaon Park"
    ensures Locality(a) == "Koregaon Park"
  {
    var seg := a[14..];
    assert LastSegmentStart(a, 14) by {
      assert seg == " Koregaon Park";
    }
    assert |seg| == 14 && seg[0] == ' ' && seg[1] == 'K' && seg[13] == 'k' && seg[1..] == "Koregaon Park" by {
      assert seg == " Koregaon Park";
    }
    assert !JsString.IsWhitespace(seg[1]) && !JsString.IsWhitespace(seg[|seg| - 1]);
    LocalityOfSegment(a, 14);
    TrimOneLeadingSpace(seg);
  }

  /**
   * `dataToSubmit`: the values without privacyPolicy, backgroundCheckConsent,
   * age, gender, skillsSets, availabilityTime, availabilityDays, idType,
   * idNumber and resume, plus the derived locality and the one-skill services list.
   */
  function Submission(v: FormValues): (payload: InsertMaid)
    ensures payload.services == Some([v.skillsSets])
    ensures payload.locality == Locality(v.address)
    ensures payload.name == v.name && payload.email == v.email && payload.phone == v.phone
    ensures payload.city == v.city
    ensures payload.address == Some(v.address) && payload.experience == Some(v.experience)
  {
    InsertMaid(v.name, v.email, v.phone, v.city, Locality(v.address), Some(v.address),
      Some(v.experience), Some([v.skillsSets]))
  }

  /** What an accepted form sends: a named, reachable applicant with one non-empty skill and a locality. */
  lemma AcceptedSubmission(v: FormValues, isEmail: string -> bool)
    requires FormSchemaAccepts(v, isEmail)
    ensures var p := Submission(v);
      && |p.name| >= 2 && |p.phone| >= 10 && |p.city| >= 2 && isEmail(p.email)
      && p.address.Some? && |p.address.value| >= 5
      && p.services.Some? && |p.services.value| == 1 && |p.services.value[0]| >= 1
      && p.locality != ""
  {
  }

  /**
   * What `formSchema` is given: the form's values, and the `locality` key that
   * `formSchema` inherits as a required string from `insertMaidSchema`.
   */
  datatype SchemaInput = SchemaInput(values: FormValues, locality: Option<string>)

  /** What the form hands to its resolver: it renders no locality field and has no default for one. */
  function FormOutput(v: FormValues): (input: SchemaInput)
    ensures input.values == v && input.locality.None?
  {
    SchemaInput(v, None)
  }

  /** `formSchema` as written: the form's own rules plus the inherited required `locality` string. */
  predicate FormSchemaAsWritten(input: SchemaInput, isEmail: string -> bool) {
    FormSchemaAccepts(input.values, isEmail) && input.locality.Some?
  }

  /** As written, the schema rejects every value the form can produce, so `onSubmit` never runs. */
  lemma FormSchemaAsWrittenRejectsForm(v: FormValues, isEmail: string -> bool)
    ensures !FormSchemaAsWritten(FormOutput(v), isEmail)
  {
  }

  /** A complete application; its email is the one checked in `IntendedSchemaAdmitsForm`. */
  const SampleApplication: FormValues := FormValues(
    "Deepa Gupta", "deepa.gupta@example.com", "1098765432", "12 River Road, Koregaon Park", "Pune",
    "32", "female", "4 years", "Cleaning", "Morning", "Weekdays", "Aadhaar", "1234", None, true, true)

  /** The intended rules (without the inherited locality) accept a complete application from the form. */
  lemma IntendedSchemaAdmitsForm(isEmail: string -> bool)
    requires isEmail(SampleApplication.email)
    ensures FormSchemaAccepts(FormOutput(SampleApplication).values, isEmail)
    ensures !FormSchemaAsWritten(FormOutput(SampleApplication), isEmail)
  {
  }

  /** What `onSubmit` caught: an `Error` with its message, or any other thrown value. */
  datatype Thrown = ErrorObject(message: string) | NonError

  const DefaultErrorMessage: string := "Failed to submit application. Please try again."
  const DuplicateEmailMessage: string := "An application with this email already exists."

  /** The message shown for a failed submission. */
  function SubmitErrorMessage(thrown: Thrown): (msg: string)
    ensures thrown.NonError? ==> msg == DefaultErrorMessage
    ensures thrown.ErrorObject? && (exists i :: JsString.OccursAt(thrown.message, "409", i)) ==>
      msg == DuplicateEmailMessage
    ensures thrown.ErrorObject? && !(exists i :: JsString.OccursAt(thrown.message, "409", i)) ==>
      msg == thrown.message
  {
    match thrown
    case NonError => DefaultErrorMessage
    case ErrorObject(message) =>
      if JsString.Includes(message, "409") then DuplicateEmailMessage else message
  }
}
