# bloodbank-next, modelled in Dafny

bloodbank-next is a blood bank web application. Its route handlers keep a small relational
store:

- blood stock per blood group;
- blood requests;
- recipients;
- donors;
- donation appointments;
- one-time email verification codes;
- administrator accounts.

Administrators manage stock, resolve requests, record donations and move appointments
through their statuses. Donors register behind a verified email address, book appointments
and edit their profile. Recipients register and submit requests. A seed script fills a fresh
database, and a route guard and a credentials sign-in decide who may see what.

This project models that core:

- **The store.** The database is a class, `Database.Db`, with one `seq` field per table and
  one autoincrement counter per numeric key. Its `Valid()` predicate states the schema's
  constraints:
  - keys are distinct and below their counter;
  - stock groups, recipient phones and donor phones and emails are unique;
  - every appointment names an existing donor.
- **Handlers that write.** Each such handler is a method that `modifies` only the tables it
  touches. Its `ensures` give the reply and the new tables for every branch of the source,
  error branches included.
- **Pure code.** Queries, the eligibility page's rules, the stats, the route guard, the
  credential check and the recipient list filter are functions, with lemmas about them.

Replies are `Reply<T>`: `Ok(status, body)` or `Fail(status, error)`. Mail the handlers send
is returned as a sequence of `Email(to, subject)`.

Several things outside the code are parameters:

- the clock (`now`, in milliseconds);
- `Math.random()` (a real in [0, 1));
- password hashing and comparison;
- token decoding (`Option<RegistrationToken>`);
- the email syntax check;
- the date parser and formatter;
- the session (`Option<Session>`, carrying a role and the numeric user id).

The modules:

- `Wrappers`: options and replies.
- `Text`: the string operations used: `startsWith`, `includes`, `toLowerCase`, decimal text,
  and character-code order.
- `Query`: ordered listing, filtering, counting, `take`, first match, delete at an index, and
  key constraints.
- `Schema`: rows and table invariants.
- `Database`: the `Db` class.
- One module per handler file: `StockRoute`, `RequestsRoute`, `CompleteDonationRoute`,
  `Eligibility`, `RegistrationTokens`, `OtpRoute`, `DonorsRoute`, `AppointmentsRoute`,
  `RecipientRoute`, `ProfileRoute`, `Seed`, `StatsRoute`, `Middleware`, `Auth`,
  `RecipientsPage`.

The request table has a `status` column (the seed writes "PENDING" into it), but resolving a request
deletes the row in both the approve and the reject branch. `RequestsRoute.Resolve` models
that deletion.

## Model

| member | source | states |
|---|---|---|
| StockRoute.Stored | bloodbank-next/app/api/stock/route.ts:43-53 | the stored quantity is NULL exactly when the combined one is (a `set` with JSON null); otherwise it is never negative, is at least the combined value, and is either that value or 0 |
| StockRoute.StoredCases | bloodbank-next/app/api/stock/route.ts:43-53 | `add` stores max(0, old+q); `subtract` stores max(0, old−q); any other operation acts as `set` and stores max(0, q); a NULL stored quantity is read as 0; a null q leaves the number as it was for `add` and `subtract` and stores NULL for `set` |
| StockRoute.SubtractFloorsAtZero | bloodbank-next/app/api/stock/route.ts:50-53 | subtracting more than the stock leaves exactly 0 |
| StockRoute.Post | bloodbank-next/app/api/stock/route.ts:16-66 | a non-admin gets 401, and a missing group or an absent quantity gets 400, both with no change; a null quantity passes; with no row for the group, a row holding exactly the quantity (NULL for null, negative if so given) is appended, whatever the operation; otherwise only that group's row changes, to the floored result (never negative, or NULL from a null `set`), and every other row is untouched |
| StockRoute.ByGroupIsTotalPreorder | bloodbank-next/app/api/stock/route.ts:8 | ordering by blood group compares every pair of rows and is transitive |
| StockRoute.List | bloodbank-next/app/api/stock/route.ts:5-14 | the listing is a permutation of the table, sorted by blood group |
| RequestsRoute.Submit | bloodbank-next/app/api/requests/route.ts:7-52 | a form failing the schema gets 400; a form whose (id, name) pair no recipient holds gets 400; neither inserts anything; otherwise exactly one row with a fresh id is appended, the reply is 201 with that row, and the administrator (ADMIN_EMAIL, or the default address) is mailed; an accepted row always passed the schema and names an existing recipient |
| RequestsRoute.Decrement | bloodbank-next/app/api/requests/route.ts:100-103 | a NULL column stays NULL and only a NULL one is NULL; otherwise adding the units back gives the old value, so a decrement of one or more always lowers it |
| RequestsRoute.DeductedExactly | bloodbank-next/app/api/requests/route.ts:91-103 | a covered approval lowers its group's row by exactly the requested units, leaves that row at 0 or more, and changes no other row; every stored request has at least one unit (`Db.Valid`), so this holds for each approval `Resolve` performs |
| RequestsRoute.Resolve | bloodbank-next/app/api/requests/route.ts:69-123 | a non-admin gets 401; a missing id or an action other than approve or reject gets 400 before any lookup; an unknown id gets 404; an approval that the stock cannot cover (no row, or NULL-as-0 below the units) gets 400; none of these change anything; a rejection deletes the request and leaves stock alone; a covered approval deducts the units and deletes the request; after any success no row with that id is left |
| RequestsRoute.ResolveTwice | bloodbank-next/app/api/requests/route.ts:83-87 | after a successful resolve, a second resolve of the same id gets 404 and the stock stays as the first left it, so stock is deducted at most once |
| RequestsRoute.List | bloodbank-next/app/api/requests/route.ts:54-67 | admin only (401 otherwise); a permutation of the table, highest id first |
| CompleteDonationRoute.Earliest | bloodbank-next/app/api/admin/complete-donation/route.ts:18-24 | finds the first APPROVED or PENDING appointment of the donor with the earliest date, or none exactly when the donor has no such appointment |
| CompleteDonationRoute.EligibleFrom | bloodbank-next/app/api/admin/complete-donation/route.ts:44-45 | the text is "Eligible from " followed by the formatted date 90 days after now, so it is never "Eligible!!" or "Not Eligible!", the texts registration stores, nor "Pending" |
| CompleteDonationRoute.Complete | bloodbank-next/app/api/admin/complete-donation/route.ts:5-59 | a non-admin gets 401 and a missing donorId gets 400, both with no change; with an open appointment, exactly the earliest becomes COMPLETED and nothing else in the table changes; otherwise one COMPLETED walk-in dated now is appended, and for an unknown donor the insert fails with 500 and nothing changes; on success the donor's last donation becomes now, the eligibility text is updated and no other donor field changes; on success the donor has exactly one more COMPLETED appointment; the stock table is outside the method's frame |
| Eligibility.Wait | bloodbank-next/app/eligibility/page.tsx:56-65 | `waitDays` is defined exactly when a last donation date is given and parses and fewer than 90 whole days have passed, and then equals 90 − daysSince, which is at least 1 |
| Eligibility.CheckExclusions | bloodbank-next/app/eligibility/page.tsx:42-53 | the twelve fixed rules each contribute their message exactly when they fire, in the order listed |
| Eligibility.CheckGap | bloodbank-next/app/eligibility/page.tsx:56-65 | the days to wait are `Wait`, and the gap message is produced exactly when there are days to wait |
| Eligibility.CheckEligibility | bloodbank-next/app/eligibility/page.tsx:38-77 | the reasons are the fixed exclusions followed by the gap message; `eligible` holds exactly when there are no reasons; the six tips are given exactly when there are no reasons, otherwise none; `waitDays` is `Wait` |
| Eligibility.EligibleIffClear | bloodbank-next/app/eligibility/page.tsx:42-65 | there are no reasons exactly when every range and answer is acceptable and no wait applies |
| Eligibility.AtMostElevenReasons | bloodbank-next/app/eligibility/page.tsx:42-65 | the age rules exclude each other and so do the pressure rules, so at most 11 reasons are produced |
| Eligibility.BoundariesAccepted | bloodbank-next/app/eligibility/page.tsx:42-48 | age 18 or 65, weight 45, haemoglobin "unknown" and diabetes "oral" give no reason |
| RegistrationTokens.Issue | bloodbank-next/lib/jwt.ts:9-11 | a new token admits its own address at the moment of issue, never once an hour has passed, and never any other address |
| RegistrationTokens.IssuedTokenAccepted | bloodbank-next/lib/jwt.ts:13-20 | counting whole seconds as the token library does, an issued token admits its own address exactly while the current second is before the issue second plus 3600: for at least 3599 s after issue and never from the hour on; it never admits another address |
| OtpRoute.OtpNumber | bloodbank-next/app/api/auth/otp/route.ts:9-11 | the code number lies in 100000..999999 |
| OtpRoute.GenerateOtp | bloodbank-next/app/api/auth/otp/route.ts:9-11 | the code is six decimal digits whose value lies in 100000..999999 |
| OtpRoute.Post | bloodbank-next/app/api/auth/otp/route.ts:13-83 | a missing email or an unknown action gets 400 with the tokens unchanged; `send` removes every code of the address and adds one fresh code expiring ten minutes after now, so the address has exactly one code, other addresses' codes are unchanged, and the code is mailed; `verify` with a missing code gets 400; `verify` succeeds exactly when a stored code for the address matches and expires strictly after now; a failure gets 400 with no change; a success deletes the matched code, so no code with that key is left, and answers with a registration token for the address |
| OtpRoute.VerifyTwice | bloodbank-next/app/api/auth/otp/route.ts:66-74 | once a code has been verified, verifying it again fails with "Invalid or Expired OTP" |
| DonorsRoute.InitialEligibility | bloodbank-next/app/api/donors/route.ts:56-61 | the answer is "Eligible!!" exactly when haemoglobin, pressure and sugar are all "normal", and "Not Eligible!" otherwise; "Pending" is never stored |
| DonorsRoute.NewDonor | bloodbank-next/app/api/donors/route.ts:53-72 | the stored row holds the hash of the password, never the password or the token, and the initial eligibility |
| DonorsRoute.CardOf | bloodbank-next/app/api/donors/route.ts:73-84 | the reply carries the row's id, email, phone and eligibility, and has no password field |
| DonorsRoute.Register | bloodbank-next/app/api/donors/route.ts:9-95 | an invalid form gets 400; a token that does not decode, has expired or names another address gets 400; a phone or email some donor already has gets 400; none of these insert anything; otherwise one row with a fresh id is appended and the reply is 201; a new donor shares neither phone nor email with any earlier donor, so both stay unique |
| DonorsRoute.List | bloodbank-next/app/api/donors/route.ts:97-122 | admin only (401 otherwise); one summary without the password per donor, highest id first |
| DonorsRoute.RemoveAppointmentsOf | bloodbank-next/app/api/donors/route.ts:137-139 | exactly the donor's appointments are removed; every other donor keeps exactly the appointments they had |
| DonorsRoute.Delete | bloodbank-next/app/api/donors/route.ts:124-150 | a non-admin gets 401 and a missing id gets 400, both with no change; an unknown id gets 500 and, since no appointment names an unknown donor, nothing changes; otherwise the donor's appointments are removed, then the donor row, and every other donor's appointments are untouched |
| AppointmentsRoute.Book | bloodbank-next/app/api/appointments/route.ts:8-62 | only a donor may book (401 otherwise); a missing date, units outside 1..3 or a caller with no donor row gets 400 with no change; otherwise one PENDING appointment for the caller is appended, with units defaulting to 1 and the donation type to "Whole Blood" |
| AppointmentsRoute.Target | bloodbank-next/app/api/appointments/route.ts:74 | the settable statuses are exactly APPROVED, REJECTED and COMPLETED; PENDING is never a target |
| AppointmentsRoute.Notice | bloodbank-next/app/api/appointments/route.ts:84-123 | a COMPLETED update mails nothing; a donor without an email or a name is never mailed; one with both receives exactly one notice, "Appointment Approved - BloodBank" for APPROVED and "Appointment Update - BloodBank" for REJECTED, addressed to the donor's email |
| AppointmentsRoute.SetStatus | bloodbank-next/app/api/appointments/route.ts:64-129 | a non-admin gets 401; a missing id or a status outside the whitelist gets 400; an unknown id gets 500; none of these change anything; otherwise the row takes exactly the target status, whatever it was before, no other field or row changes, and the notice goes to the appointment's donor |
| AppointmentsRoute.List | bloodbank-next/app/api/appointments/route.ts:14-36 | no session gets 401; an admin sees a permutation of every appointment, earliest date first; anyone else sees exactly their own appointments, latest date first |
| RecipientRoute.NewRecipient | bloodbank-next/app/api/recipient/route.ts:35-49 | a missing or empty hospital, doctor, address or purpose is stored as NULL and a present one is stored as given; a missing or empty urgency becomes "Normal" and a present one is kept; name, age, sex, phone and blood group are copied, the id is the one assigned and the registration date is the current time |
| RecipientRoute.Register | bloodbank-next/app/api/recipient/route.ts:6-59 | an invalid form gets 400; a phone already registered gets 409 with the id of the recipient holding it; neither inserts anything; otherwise one row with a fresh id is appended and the reply is 201, so phones stay unique |
| RecipientRoute.List | bloodbank-next/app/api/recipient/route.ts:61-75 | admin only (401 otherwise); a permutation of the table, highest id first |
| ProfileRoute.Get | bloodbank-next/app/api/donor/profile/route.ts:15-50 | a non-donor gets 401; 404 exactly when no row has the caller's id; otherwise the caller's own row without the password |
| ProfileRoute.Apply | bloodbank-next/app/api/donor/profile/route.ts:60-64 | the update sets phone, weight, blood group and age, sets address and diseases only when given, and leaves every other column untouched: name, email, sex, the health snapshot, last donation, eligibility, registration date and password |
| ProfileRoute.Patch | bloodbank-next/app/api/donor/profile/route.ts:52-74 | a non-donor gets 401 and an invalid form 400; a caller with no row, or a phone another donor holds, gets 500; none of these change anything; otherwise only the caller's row changes, as `Apply` says |
| Seed.SeedAdmin | bloodbank-next/prisma/seed.js:46-63 | the administrator is created only when no user has the address, and afterwards a user with the address exists |
| Seed.SeedStock | bloodbank-next/prisma/seed.js:65-86 | existing rows keep their place; an existing row of one of the eight groups is set to its seed level only when it is 0 or NULL; rows are added only for groups that had none, at their seed level; afterwards every group has a row and none is 0 or NULL; on a table already in that state nothing changes |
| Seed.DaysBack | bloodbank-next/prisma/seed.js:102 | the last donation lies a whole number of days, 0 to 179, before now |
| Seed.SeededDonor | bloodbank-next/prisma/seed.js:93-103 | a seeded donor's eligibility follows the registration rule (all three readings "normal"); the last donation lies within the last 179 days; the password is the hash |
| Seed.SeedDonors | bloodbank-next/prisma/seed.js:88-108 | existing donors are kept; the `created` added rows are seeded rows; unless the run failed on a taken email, every sample phone is registered afterwards; when every sample phone was already registered nothing is inserted |
| Seed.SeedRecipients | bloodbank-next/prisma/seed.js:110-124 | existing recipients are kept; afterwards every sample phone is registered; when every sample phone was already registered nothing is inserted |
| Seed.SampleRequest | bloodbank-next/prisma/seed.js:133 | the sample request names the first recipient by the (id, name) pair the reconciler looks up, asks for that recipient's own group when it has one, is PENDING, and passes the request form's schema whenever the recipient's name and id would |
| Seed.SeedRequest | bloodbank-next/prisma/seed.js:126-142 | the sample request is inserted only into an empty request table that has a recipient to point at |
| Seed.Run | bloodbank-next/prisma/seed.js:43-145 | after a run the administrator exists, every group is stocked and, unless it failed, every sample donor and recipient is registered and a request exists; on a database that already holds the seed nothing is added |
| Seed.SeedTwice | bloodbank-next/prisma/seed.js:43-145 | when a first run succeeds, a second run also succeeds, creates no donor and no recipient, and leaves stock, donors, recipients, requests and users as the first run left them |
| StatsRoute.QuantitySum | bloodbank-next/app/api/admin/stats/route.ts:15 | the SQL sum is NULL exactly when every quantity is NULL |
| StatsRoute.TotalStockIsUnits | bloodbank-next/app/api/admin/stats/route.ts:15-33 | `totalStock` (the sum, or 0 when it is NULL) equals the total of the quantities with NULL read as 0 |
| StatsRoute.LowStock | bloodbank-next/app/api/admin/stats/route.ts:20-21 | exactly the rows whose quantity (NULL as 0) is at most 5, in blood group order, as a subsequence of the listing |
| StatsRoute.RecentActivity | bloodbank-next/app/api/admin/stats/route.ts:23-28 | min(5, number of APPROVED or COMPLETED appointments) entries; all APPROVED or COMPLETED and from the table; newest created first; no omitted candidate is newer than one shown |
| StatsRoute.Get | bloodbank-next/app/api/admin/stats/route.ts:5-44 | a non-admin gets 401 and no data; otherwise the counts of donors, requests and recipients, the pending count, the total stock, the listing by group, the low stock rows and the recent activity |
| Middleware.PagesDisjoint | bloodbank-next/middleware.ts:10-12 | no path is more than one of login, admin and donor page |
| Middleware.Decide | bloodbank-next/middleware.ts:5-44 | a signed-in admin or donor on the login page goes to their own dashboard and anyone else there passes; without a session, admin and donor pages redirect to /login; another role on an admin page goes to /donor/dashboard, and on a donor page to /admin/dashboard; the owner of a page passes; any other path passes |
| Middleware.Guard | bloodbank-next/middleware.ts:46-48 | the guard runs only on paths the matcher lists; every other path passes |
| Middleware.MatchedPathsAreClassified | bloodbank-next/middleware.ts:10-48 | every path the matcher lists is a login, admin or donor page |
| Middleware.PrefixClassification | bloodbank-next/middleware.ts:10-48 | classification is by prefix, so "/administrator" counts as an admin page and the decision would redirect a donor there; the matcher does not list it, so the guard lets it pass |
| Auth.GetUser | bloodbank-next/auth.ts:15-52 | the admin table is consulted first; an address in neither table, or a failed lookup, gives null; the user found carries the id, name and hash of a matching row |
| Auth.Authorize | bloodbank-next/auth.ts:61-83 | malformed credentials give null whatever the tables hold; a missing user or a missing hash gives null; otherwise the sign-in succeeds exactly when the password matches the hash; a signed-in user is the looked-up user without the password |
| Auth.AdminTakesPrecedence | bloodbank-next/auth.ts:18-45 | an address registered as both administrator and donor signs in as administrator |
| Auth.SignedInIdParses | bloodbank-next/auth.ts:23-39 | the id a signed-in user carries is decimal text whose value is the matched row's key |
| Auth.Jwt | bloodbank-next/auth.ts:87-93 | role and id are copied into the token exactly when a user is present; otherwise the token is unchanged |
| Auth.SessionFromToken | bloodbank-next/auth.ts:94-100 | role and id are copied into the session user exactly when the token has a role |
| Auth.SignIn | bloodbank-next/auth.ts:61-100 | after a sign-in the session carries the role and id of the user `authorize` accepted; a refused sign-in leaves the token unchanged |
| RecipientsPage.Filtered | bloodbank-next/app/admin/recipients/page.tsx:56-64 | the shown rows keep the listing's order and are exactly the rows that pass both the search and the urgency test |
| RecipientsPage.EmptySearchShowsAll | bloodbank-next/app/admin/recipients/page.tsx:56-63 | an empty search with urgency "all" shows every row |
| RecipientsPage.NullUrgencyIsNormal | bloodbank-next/app/admin/recipients/page.tsx:62 | a row with no urgency passes the urgency filter exactly for "all" and "Normal" |
| RecipientsPage.SearchCase | bloodbank-next/app/admin/recipients/page.tsx:57-61 | names match ignoring case; phones match only as written |
| RecipientsPage.CriticalCount | bloodbank-next/app/admin/recipients/page.tsx:70 | counts exactly the rows whose urgency is "Critical"; the count is 0 exactly when none is |
| Text.DecimalRoundTrip | bloodbank-next/auth.ts:23 | parsing the decimal text of a non-negative integer gives back that integer |

## Left out

- Side effects beyond the tables are not modelled. Mail delivery is one: the reply is a list
  of recipient and subject, and neither the HTML templates nor a failed send is modelled.
  Console logging is another.
- Password hashing and comparison, token signing and signature checking, and the email syntax
  check are parameters. They are not implementations.
- The clock, `Math.random()`, the runtime's date parser and `toLocaleDateString` are
  parameters. The 90 days are 90 × 86 400 000 ms, so daylight-saving shifts are not modelled.
- Concurrency is not modelled. Each handler is one sequential step, and no atomicity is
  claimed for the check-then-write sequences of a stock update, a request approval or a
  donation completion.
- Zod coercion is not modelled. Forms arrive as typed records and the schema is a predicate,
  so schema errors answer with a fixed message rather than the issue list.
- Eligibility.CheckEligibility: the page's own form schema (age and weight at least 1,
  required answers) is not modelled; the rules are stated on any answers.
- Non-finite numbers are not modelled. An unparsable last-donation date, whose comparison is
  NaN in JavaScript, is modelled as a date that adds no reason.
- Text is ordered and lower-cased by character code and ASCII letters only, standing in for
  the database collation and for full Unicode case mapping.
- Catch-all 500 replies from unexpected database failures are left out. The ones the model's
  own constraints imply are in: an update or delete of an unknown key, an insert with a broken
  foreign key, and a unique phone clash on a profile update.
- The appointment listing's and `recentActivity`'s include of the donor's name and group is
  left out. Rows are returned without the joined columns.
- The seed-only columns the handlers never read are not stored: D_state, D_donation_type and
  D_units_donated.
- Seed.SeedDonors: the real script aborts on a taken email with an exception. The model
  returns `failed` and stops; the rest of `main` is not run then.
- Seed.Run: the per-record `Math.random()` values and password hashes are indexed by sample
  record and passed in.
- OtpRoute.GenerateOtp: the real arithmetic is on doubles. The model computes the floor on
  exact reals.
- ProfileRoute.Patch: the reply is the whole updated row, the password hash included, as
  `update` returns it. The model does not strip any column.
- StockRoute.Post: the body's quantity is a JSON number, null or absent. A string, a
  fraction or any other JSON value is not modelled (JavaScript would concatenate or the
  database would refuse it).
- RequestsRoute.Submit: the columns the form does not fill (urgency, purpose, hospital and
  status) are taken as NULL. The database schema that would give them defaults is not part
  of this model.
- The UI is not modelled: rendering, client-side flows and the other pages.
- The donor dashboard's display arithmetic and the stock page's "< 5 low stock" badge are not
  modelled; the badge's threshold differs from the dashboard's "≤ 5".
- start.js and the email transport module are not part of this model.
