# MaidEasy core in Dafny

A model of the core of the MaidEasy (cleandaze) web application, with proofs about it. The model covers four parts:

- **The in-memory store** `MemStorage` (`server/storage.ts`). It holds users, waitlist entries, maids and bookings, each under a server-assigned id, plus one optional company-settings record. It is modelled as a Dafny class. Each JavaScript `Map` becomes an insertion-ordered sequence whose element `i` carries id `i + 1`, and each id counter is a `nat` field. The class invariant `Valid()` ties the two together. Read operations are functions with `reads this`. Create, update and upsert operations are methods with field-granular `modifies` clauses. The seeding loop of `initializeSampleMaids` is a `for` loop.
- **The waitlist handlers** of `server/routes.ts`:
  - `POST /api/waitlist` validates, then checks for a duplicate, then creates. It is a method over the store, specified by the decision function `JoinOutcome`. Paired lemmas about sequences of requests show that fresh emails each add one entry, that a repeated email adds nothing, and that waitlist emails stay unique.
  - `GET /api/waitlist/count` returns the number of stored entries.
- **`getApiUrl`** (`client/src/lib/apiHelper.ts`) strips one leading slash and adds the production or development prefix.
- **The maid-registration form** (`client/src/components/become-maid-form.tsx`):
  - the length and consent rules of `formSchema` (the predicate `MaidForm.FormSchemaAccepts`);
  - the payload `onSubmit` sends, including the locality derived from the address;
  - the message shown when submission throws.

The JavaScript string built-ins the core uses live in `JsString`: `toLowerCase` (ASCII), `trim` (the full ECMAScript whitespace and line-terminator set), `split`/`join` on a one-character separator, and `includes`.

Files:

| file | module | contents |
|---|---|---|
| `wrappers.dfy` | `Wrappers` | `Option`, with `GetOr` for `??` |
| `schema.dfy` | `Schema` | record and insert shapes of `shared/schema.ts` |
| `js_string.dfy` | `JsString` | string built-ins |
| `storage.dfy` | `Storage` | `MemStorage` and its seed data |
| `routes.dfy` | `Routes` | the two waitlist handlers |
| `api_helper.dfy` | `ApiHelper` | `getApiUrl` |
| `maid_form.dfy` | `MaidForm` | form rules, payload and error message |

Modelling conventions:

- A nullable column or an optional insert field is an `Option`.
- The clock (`new Date().toISOString()`) is a `Timestamp` parameter.
- The admin password hash is a string parameter.
- `insertWaitlistSchema.safeParse` is a function parameter from the request body to `Option<InsertWaitlistEntry>`.
- The e-mail format check of `formSchema` is a predicate parameter.
- `import.meta.env.PROD` is a boolean parameter.

## Model

| member | source | states |
|---|---|---|
| Storage.Find | server/storage.ts:257-259 | `find` gives None exactly when no element matches; otherwise it gives the first matching element |
| Storage.Filter | server/storage.ts:301-303 | `filter` keeps exactly the elements satisfying the predicate and never grows the collection |
| Storage.FilterKeepsOrder | server/storage.ts:300-310 | filtering keeps insertion order: a key strictly increasing along the input still increases along the result |
| Storage.MemStorage.constructor | server/storage.ts:63-80 | a new store satisfies the invariant and holds the ten seed maids under ids 1-10, so the next maid id is 11; it holds one admin user with id 1 and role "admin", no waitlist entries and no bookings; the settings are the defaults, every field of them, with id 1 and the construction time as `updatedAt` |
| Storage.MemStorage.InitializeSampleMaids | server/storage.ts:246-249 | each seed record is stored in order under the next maid id, available, and the counter advances by the number of seeds |
| Storage.MemStorage.InitializeAdminUser | server/storage.ts:88-114 | the admin user is appended under the next user id exactly when no user is named "admin"; otherwise the users are unchanged |
| Storage.MemStorage.InitializeCompanySettings | server/storage.ts:116-129 | when no settings exist, the stored record becomes the defaults of lines 120-126 with id 1 and `updatedAt` the current time; existing settings are kept |
| Storage.MemStorage.GetUser | server/storage.ts:252-254 | the stored user with that id, or None when no user has that id |
| Storage.MemStorage.GetUserByUsername | server/storage.ts:256-260 | the first user with that exact username, or None when there is none |
| Storage.MemStorage.GetUserByEmail | server/storage.ts:262-266 | the first user with that exact email, or None when there is none |
| Storage.MemStorage.CreateUser | server/storage.ts:268-275 | the new user gets the counter value before the call as its id, which is larger than every existing id; the counter advances by one; the fields are copied; the role defaults to "customer"; the user is appended and can then be looked up by its id |
| Storage.MemStorage.GetWaitlistEntries | server/storage.ts:277-279 | all stored entries, in id order |
| Storage.MemStorage.GetWaitlistEntryByEmail | server/storage.ts:281-285 | the first entry with that exact email, or None when there is none |
| Storage.MemStorage.CreateWaitlistEntry | server/storage.ts:287-294 | the entry gets the next, fresh waitlist id and the counter advances; an absent company stays null; the entry is appended |
| Storage.MemStorage.GetMaids | server/storage.ts:296-298 | all stored maids, in id order |
| Storage.MemStorage.GetMaidsByCity | server/storage.ts:300-304 | exactly the maids whose city equals the argument after lower-casing both, in ascending id order |
| Storage.MemStorage.GetMaidsByLocality | server/storage.ts:306-310 | exactly the maids whose locality equals the argument after lower-casing both, in ascending id order |
| Storage.MemStorage.GetMaidById | server/storage.ts:312-314 | the stored maid with that id, or None when no maid has that id |
| Storage.MemStorage.GetMaidByEmail | server/storage.ts:316-320 | the first maid with that exact email, or None when there is none |
| Storage.MemStorage.CreateMaid | server/storage.ts:322-348 | the maid gets the next, fresh maid id; the required fields are copied verbatim; absent address and experience stay null; absent services become the empty list; the maid is always available; the maid is appended and can be looked up by its id |
| Storage.MemStorage.UpdateMaidAvailability | server/storage.ts:350-358 | for an unknown id the result is None and the maids are unchanged; otherwise only the availability of that one maid changes and the updated maid is returned |
| Storage.MemStorage.GetBookings | server/storage.ts:361-363 | all stored bookings, in id order |
| Storage.MemStorage.GetBookingById | server/storage.ts:365-367 | the stored booking with that id, or None when no booking has that id |
| Storage.MemStorage.GetBookingsByUserId | server/storage.ts:369-373 | exactly the bookings of that user, in ascending id order |
| Storage.MemStorage.GetBookingsByMaidId | server/storage.ts:375-379 | exactly the bookings of that maid, in ascending id order |
| Storage.MemStorage.CreateBooking | server/storage.ts:381-397 | the booking gets the next, fresh booking id; its status is always "pending"; absent notes stay null; the other fields are copied; the booking is appended and can be looked up by its id |
| Storage.MemStorage.UpdateBookingStatus | server/storage.ts:399-407 | for an unknown id the result is None and the bookings are unchanged; otherwise only the status of that one booking changes, to any string, and the updated booking is returned |
| Storage.MemStorage.GetCompanySettings | server/storage.ts:410-412 | the stored settings record itself, so None exactly when no settings exist; when present it has id 1 |
| Storage.MemStorage.CreateOrUpdateCompanySettings | server/storage.ts:414-443 | exactly one settings record remains, with id 1; every field comes from the input, so optional fields omitted from the input become null even if set before; `updatedAt` is the current time |
| Storage.UpsertTwice | server/storage.ts:414-443 | upserting the same input twice gives records that differ only in `updatedAt` |
| Storage.SeededMaidsIds | server/storage.ts:246-249 | the seeded maids have ids 1 to 10, are all available and carry the seed emails |
| Storage.FirstRegisteredMaid | server/storage.ts:323 | on a new store, the first maid created gets id 11 |
| Storage.CityQueryIgnoresCase | server/storage.ts:300-304 | the city query gives the same maids for an argument and for its lower-cased form |
| Storage.LocalityQueryIgnoresCase | server/storage.ts:306-310 | the locality query gives the same maids for an argument and for its lower-cased form |
| Routes.JoinOutcome | server/routes.ts:12-36 | the handler answers 400 exactly when validation fails and 409 exactly when a valid body's email is already stored; otherwise it answers 201 with the entry under the next id and the body's fields |
| Routes.PostWaitlist | server/routes.ts:9-43 | the handler's answer is `JoinOutcome` of the old waitlist; the waitlist gains that entry on 201 and is unchanged on 400 and 409; the store invariant is kept |
| Routes.GetWaitlistCount | server/routes.ts:46-51 | status 200 with the number of stored waitlist entries |
| Routes.DistinctJoinsCount | server/routes.ts:9-51 | n valid joins with distinct emails that are not yet stored add exactly n entries |
| Routes.JoinResponse.Status | server/routes.ts:16-33 | the status code of each answer: 400 for a validation error, 409 for a duplicate, 201 for a created entry |
| Routes.JoinResponse.Message | server/routes.ts:17-34 | the message of each answer, verbatim from the handler |
| Routes.ServeJoins | server/routes.ts:9-58 | serving `POST /api/waitlist` for each body in turn and then `GET /api/waitlist/count` leaves the replayed waitlist in the store and answers 200 with its size; when every join is valid with a fresh, distinct email, the count grows by exactly the number of bodies |
| Routes.CountFromEmpty | server/routes.ts:9-51 | from an empty waitlist, n valid joins with distinct emails give a count of n |
| Routes.RepeatedEmailAddsNothing | server/routes.ts:23-28 | a join with an email already stored answers 409 and leaves the waitlist unchanged |
| Routes.ReplayBounds | server/routes.ts:9-36 | serving requests never shrinks the waitlist and adds at most one entry per request |
| Routes.ReplayKeepsEmailsUnique | server/routes.ts:23-36 | whatever requests arrive, a waitlist with unique emails keeps unique emails |
| Routes.CaseSensitiveDuplicateCheck | server/routes.ts:23 | the duplicate check is case-sensitive: "Asha@x.com" is accepted when "asha@x.com" is stored |
| JsString.ToLowerCase | server/storage.ts:302 | `toLowerCase` keeps the length, maps each character on its own, and leaves no upper-case ASCII letter |
| JsString.ToLowerCaseIdempotent | server/storage.ts:302 | lower-casing twice is lower-casing once |
| JsString.TrimStart | client/src/components/become-maid-form.tsx:165 | the result is a suffix of the input; every dropped character is whitespace; the result does not start with whitespace |
| JsString.TrimEnd | client/src/components/become-maid-form.tsx:165 | the result is a prefix of the input; every dropped character is whitespace; the result does not end with whitespace |
| JsString.Trim | client/src/components/become-maid-form.tsx:165 | `trim` gives a slice of the input with only whitespace around it and no whitespace at either end; it is empty exactly when the input is all whitespace |
| JsString.Split | client/src/components/become-maid-form.tsx:165 | `split` gives at least one piece and no piece contains the separator |
| JsString.JoinSplit | client/src/components/become-maid-form.tsx:165 | joining the pieces of a split with the separator gives back the string |
| JsString.SplitJoin | client/src/components/become-maid-form.tsx:165 | splitting the join of separator-free pieces gives back the pieces |
| JsString.LastPieceIsSuffix | client/src/components/become-maid-form.tsx:165 | the last piece of a split (`pop`) is the suffix after the last separator |
| JsString.SplitWithoutSeparator | client/src/components/become-maid-form.tsx:165 | a string without the separator splits into itself alone |
| JsString.Includes | client/src/components/become-maid-form.tsx:191 | `includes` holds exactly when the substring occurs at some position |
| JsString.Last | client/src/components/become-maid-form.tsx:165 | `pop` on the non-empty array `split` returns gives its last element |
| ApiHelper.CleanPath | client/src/lib/apiHelper.ts:7 | a path with a leading slash is that slash followed by the clean path; any other path is unchanged |
| ApiHelper.GetApiUrl | client/src/lib/apiHelper.ts:5-16 | the URL always starts with "/"; in production it is "/.netlify/functions/api/" followed by the clean path; in development it is "/" followed by the clean path |
| ApiHelper.CleanPathRemovesOneSlash | client/src/lib/apiHelper.ts:7 | exactly one leading slash is removed, so "//x" cleans to "/x" |
| ApiHelper.LeadingSlashIrrelevant | client/src/lib/apiHelper.ts:7 | for a path without a leading slash, adding one does not change the URL |
| ApiHelper.DevelopmentIdempotent | client/src/lib/apiHelper.ts:7-15 | in development, rewriting the URL a second time changes nothing |
| ApiHelper.ProductionNotIdempotent | client/src/lib/apiHelper.ts:10-12 | in production, rewriting a second time adds the prefix again |
| MaidForm.FormSchemaAccepts | client/src/components/become-maid-form.tsx:24-71 | the form's own rules: name of at least 2 characters, a valid email, phone of at least 10, address of at least 5, city of at least 2, non-empty age, skills and ID number, and both consents given |
| MaidForm.OrUnknown | client/src/components/become-maid-form.tsx:165 | `t \|\| 'Unknown'` on a string: never empty; a non-empty string is kept and the empty string becomes "Unknown" |
| MaidForm.LastPieceStart | client/src/components/become-maid-form.tsx:165 | the last piece of `address.split(',')` starts the last comma-separated segment |
| MaidForm.Locality | client/src/components/become-maid-form.tsx:165 | the locality is never empty, has no comma and no whitespace at either end; it is the trimmed text after the last comma, or "Unknown" when that is blank |
| MaidForm.LocalityOfSegment | client/src/components/become-maid-form.tsx:165 | for the start of the last segment, the locality is that segment trimmed, or "Unknown" when the trimmed segment is empty |
| MaidForm.LocalityWithoutComma | client/src/components/become-maid-form.tsx:165 | an address without a comma gives the whole address trimmed, or "Unknown" when that is empty |
| MaidForm.LocalityTrailingComma | client/src/components/become-maid-form.tsx:165 | an address ending in a comma gives "Unknown" |
| MaidForm.LocalityExample | client/src/components/become-maid-form.tsx:165 | "12 River Road, Koregaon Park" gives the locality "Koregaon Park" |
| MaidForm.Submission | client/src/components/become-maid-form.tsx:147-172 | the payload carries name, email, phone, city, address and experience from the form, the derived locality, and services equal to the one-element list of the skills; none of the other form fields is part of it |
| MaidForm.AcceptedSubmission | client/src/components/become-maid-form.tsx:24-71 | an accepted form sends a name of at least 2 characters, a phone of at least 10, a city of at least 2, a valid email, an address of at least 5, exactly one non-empty skill, and a non-empty locality |
| MaidForm.FormOutput | client/src/components/become-maid-form.tsx:120-139 | what the form hands to its resolver carries the form's values and no `locality` key |
| MaidForm.FormSchemaAsWritten | client/src/components/become-maid-form.tsx:24 | `formSchema` as written: the form's rules and, inherited from `insertMaidSchema`, a required `locality` string |
| MaidForm.FormSchemaAsWrittenRejectsForm | client/src/components/become-maid-form.tsx:24 | as written, the schema rejects every value the form can produce |
| MaidForm.IntendedSchemaAdmitsForm | client/src/components/become-maid-form.tsx:24-71 | the form's own rules accept a complete application produced by the form, which the schema as written rejects |
| MaidForm.SubmitErrorMessage | client/src/components/become-maid-form.tsx:184-194 | an Error whose message contains "409" shows the duplicate-email message; any other Error shows its own message; any other thrown value shows the default message |

## Left out

- Password hashing (`scrypt` with a random salt, server/storage.ts:93-103) is a foreign crypto call. The hash is a parameter of the constructor.
- The session store (`MemoryStore`, server/storage.ts:72-74) is library plumbing and is not modelled.
- Storage.MemStorage.constructor: the source starts `initialize()` without awaiting it, so the admin user and the settings appear after the constructor returns. The model runs the whole initialisation synchronously, so the interleaving with early requests is not captured. All clock reads during construction share one `now`.
- The clock is a parameter; the model does not relate timestamps of successive calls.
- The zod and drizzle validation machinery is not modelled:
  - `safeParse` is a parameter;
  - the `errors` details of a 400 response are not modelled;
  - the `.email()` format check is a predicate parameter.
- MaidForm.FormSchemaAccepts: fields that only have to be strings (gender, experience, availability, ID type) are always strings in `FormValues`, so the predicate has no rule for them. The inherited `locality` rule is the subject of the finding below; the rest of the model uses the intended predicate.
- The 500 "Internal server error" branches of both handlers (server/routes.ts:37-42, 52-57) are not modelled: no operation of the in-memory store can throw.
- Only the two waitlist routes exist in server/routes.ts. Routes for maids, bookings and authorisation are not part of this model.
- `functions/api.js` and `functions/server-utils.js` are not part of this model. They hold serverless wiring, CORS, static serving and logging.
- The other client pages and components are presentation and React state and are not part of this model. Within `onSubmit`, the React state updates, the toasts and the `apiRequest` call are left out as well.
- JsString.ToLowerCase: lower-casing covers ASCII letters only, not Unicode case mapping.
- The lengths in the form rules and in `trim` count Unicode scalar values. JavaScript counts UTF-16 code units, so the two differ for characters outside the Basic Multilingual Plane.
- Aliasing: the store keeps and returns the same objects it is given (`createMaid` stores the caller's `services` array and returns the stored record, and the getters return stored records). A caller that mutates a returned record changes the store. The model's records are immutable values, so it cannot show this. The two waitlist routes do not mutate what they get back.
- Ids and counters are unbounded naturals. JavaScript numbers lose precision beyond 2^53.

## Findings

| source | as written | input that shows it | evidently intended | confidence | as-written member | corrected member |
|---|---|---|---|---|---|---|
| client/src/components/become-maid-form.tsx:24 | `formSchema` extends `insertMaidSchema`, which requires `locality` as a string (shared/schema.ts:30, 81). The form renders no locality field and its `defaultValues` (lines 122-139) set none, so the resolver rejects every submission and `onSubmit` is never called | any complete application, e.g. `SampleApplication` | validate only the form's own fields; `onSubmit` derives `locality` from the address (line 165) | likely; not executed | MaidForm.FormSchemaAsWrittenRejectsForm | MaidForm.IntendedSchemaAdmitsForm |
