# ProfileEra lead capture, modelled in Dafny

ProfileEra is a marketing site. Its backend collects job-seeker leads through
a contact form and shows them in a small admin panel. This project models the
decision and state-update rules of that flow and proves their properties:

- **The admin gate** (`middleware/adminAuth.js`, and the copy `checkAdminAuth`
  in `server.js`). It compares the `x-admin-api-key` header with the
  `ADMIN_API_KEY` setting. The outcome is 500 when the secret is unset,
  401 on a missing or wrong key, and pass-through otherwise.
- **The admin router** (`routes/adminRoutes.js`). It has `/verify`, a list of
  formatted leads (newest first), get-by-id with 404, and delete-by-id with 404.
  Formatting turns falsy link fields into `"Not provided"` and turns the stored
  resume path into a download link.
- **The Express server** (`server.js`). It holds the CORS origin rule, the upload
  filename rule `<ms>-<originalname>`, the intake endpoint `POST /api/contact`
  with its notification mail, and two read-only admin routes that send
  documents unformatted.
- **The admin dashboard** (`AdminDashboard.jsx`). It covers the search filter,
  the removal of a deleted lead from local state, fetch handling and the
  counters.
- **The contact form and accordions** (`App.jsx`). They cover the per-keystroke
  input guards, the submit status machine (`'' → sending → success | error`),
  and the two accordion toggles.

The MongoDB collection is replaced by an in-memory `Leads.Store`. It is a
sequence of documents in insertion order, and a counter issues the ids. What
the database library promises is defined once, as functions:

- `SortByDateDesc`: newest first, the same documents.
- `Lookup`: `findById`.
- `DeleteById`: `findByIdAndDelete`.

The store's methods are proved against these functions. Inputs that come from
outside the code are parameters: headers, environment variables, clock
readings, the outcome of a database call (`dbFails`, `saveFails`) and the
outcome of an HTTP request on the client.

Optional strings are `Option<string>`. JavaScript falsiness of such a value
(`undefined`, `null` or `""`) is `!Truthy(v)`.

Modules: `Common` (common.dfy), `Leads` (leads.dfy), `AdminGate`
(admin_auth.dfy), `AdminRoutes` (admin_routes.dfy), `Server` (server.dfy),
`AdminDashboard` (admin_dashboard.dfy), `App` (app.dfy).

### Where the files disagree (modelled as written)

- `server.js` never mounts `routes/adminRoutes.js`. So `/api/admin/verify` and
  the DELETE route are not reachable in the server shown. Both are modelled in
  `AdminRoutes.Handle`, and `Server.HandleAdmin` has only the two read-only
  routes.
- The server's list and get routes send the stored documents unformatted, but
  the dashboard expects the router's formatted fields.
  `Server.RouterListFormatsServerList` proves the router's list is the server's
  list with each entry formatted.
- `server.js` stores `req.file.path`, which already starts with `uploads/`.
  The router then prefixes `/uploads/` again.
  `Server.SavedResumeLinkRepeatsUploadDir` proves that the link it builds names
  the directory twice: `.../uploads/uploads/<ms>-<name>`.
- On a successful submission the intake endpoint replies only
  `{message: "Lead saved successfully"}`. It returns no lead id, and there is no
  `/api/leads` alias. The code is followed here.
- The CORS rule tests `!origin`, so an empty `Origin` header is accepted just
  like a missing one.

## Model

| member | source | states |
|---|---|---|
| `AdminGate.AdminAuth` | ProfileEra-main/server/middleware/adminAuth.js:1-18 | An unset or empty secret gives 500 "Server misconfiguration: ADMIN_API_KEY not set" whatever header is sent. With a secret set, a missing or empty header gives 401 "Unauthorized: Invalid API Key". `next` is reached iff the secret is set and the header equals it exactly. The only denials are those two, and 401 never occurs when the secret is unset. |
| `Server.CheckAdminAuth` | ProfileEra-main/server/server.js:74-87 | The server's own gate gives the same three outcomes in the same order: 500 when unconfigured, 401 on a missing key, `next` iff the header equals the configured secret. |
| `Server.CheckAdminAuthIsAdminAuth` | ProfileEra-main/server/server.js:74-87 | `checkAdminAuth` decides every request exactly as the middleware `adminAuth` does. |
| `Common.Filter` | ProfileEra-main/client/src/components/Admin/AdminDashboard.jsx:43 | `Array.prototype.filter`: an element is in the result iff it is in the input and passes, and the result is no longer than the input. |
| `Common.FilterIsSubsequence` | ProfileEra-main/client/src/components/Admin/AdminDashboard.jsx:50-53 | The elements `filter` keeps stay in their original relative order: the result is a subsequence of the input. |
| `Common.FilterKeepsAllIff` | ProfileEra-main/client/src/components/Admin/AdminDashboard.jsx:50-53 | `filter` returns its input unchanged iff every element passes. |
| `Common.FilterLength` | ProfileEra-main/client/src/components/Admin/AdminDashboard.jsx:58 | The filtered length plus the number of failing elements equals the input length. |
| `Common.IndexOf` | ProfileEra-main/server/server.js:39 | `indexOf` gives -1 iff the element is absent. Otherwise the index holds the element and no earlier position does. |
| `Common.Includes` | ProfileEra-main/client/src/components/Admin/AdminDashboard.jsx:51-52 | `String.prototype.includes` is true iff the needle occurs at some position of the string. |
| `Common.IncludesEmpty` | ProfileEra-main/client/src/components/Admin/AdminDashboard.jsx:51-52 | Every string includes the empty string. |
| `Common.ToLower` | ProfileEra-main/client/src/components/Admin/AdminDashboard.jsx:51 | `toLowerCase` on ASCII: no upper-case letter is left, each upper-case letter becomes its lower-case partner, and every other character is kept. |
| `Common.NatToDecimal` | ProfileEra-main/server/server.js:58 | The decimal rendering of `Date.now()` is a non-empty string of digits with no leading zero. |
| `Common.DecimalRoundTrip` | ProfileEra-main/server/server.js:58 | Reading the decimal rendering back gives the original number. |
| `Leads.FindIndex` | ProfileEra-main/server/routes/adminRoutes.js:36-39 | Gives no position iff no document has the id. Otherwise it gives the first position holding that id. |
| `Leads.Lookup` | ProfileEra-main/server/routes/adminRoutes.js:36-39 | `findById` gives null iff no document has the id. Otherwise it gives a stored document with that id. |
| `Leads.DeleteById` | ProfileEra-main/server/routes/adminRoutes.js:61-64 | `findByIdAndDelete` on a missing id leaves the collection unchanged. On a present id it removes exactly one document. It keeps every document with another id and adds none. |
| `Leads.DeleteByIdIsFilter` | ProfileEra-main/server/routes/adminRoutes.js:61-65 | With unique ids, the delete equals keeping every document whose id differs. So exactly that record goes, and the others keep their order. |
| `Leads.DeleteRemovesId` | ProfileEra-main/server/routes/adminRoutes.js:61-65 | After the delete no document has that id. The ids stay unique, and the rest is a subsequence of the old collection. |
| `Leads.Insert` | ProfileEra-main/server/routes/adminRoutes.js:17 | Inserting into a list sorted newest-first keeps it sorted and adds exactly that document. |
| `Leads.SortByDateDesc` | ProfileEra-main/server/routes/adminRoutes.js:17 | `find().sort({date: -1})` gives the same documents (a permutation), ordered by `date` descending. |
| `Leads.SortedMembers` | ProfileEra-main/server/routes/adminRoutes.js:17 | The sorted list has the collection's length and exactly its documents. |
| `Leads.Store.constructor` | ProfileEra-main/server/server.js:5 | The `Lead` collection starts empty, and its ids are unique. |
| `Leads.Store.Save` | ProfileEra-main/server/server.js:115-122 | `save()` appends one document under an id no stored document has, and the ids stay unique. |
| `Leads.Store.FindSorted` | ProfileEra-main/server/server.js:92 | The find-and-sort call returns the collection sorted newest-first. |
| `Leads.Store.FindById` | ProfileEra-main/server/server.js:101 | The findById call returns the lookup of the id in the collection. |
| `Leads.Store.FindByIdAndDelete` | ProfileEra-main/server/routes/adminRoutes.js:61 | Returns the document that had the id, or null. The collection becomes the collection minus that document, and the ids stay unique. |
| `AdminRoutes.OrNotProvided` | ProfileEra-main/server/routes/adminRoutes.js:22-23 | `linkedin`/`naukri` become "Not provided" exactly when the stored value is falsy (absent or ""). Otherwise they are copied unchanged, so the field sent is never empty. |
| `AdminRoutes.ResumeUrl` | ProfileEra-main/server/routes/adminRoutes.js:24 | A truthy resume becomes protocol ++ "://" ++ host ++ "/uploads/" ++ stored value. A falsy one becomes "No resume uploaded". The result is the placeholder iff there is no resume, so the placeholder is never a link. |
| `AdminRoutes.Format` | ProfileEra-main/server/routes/adminRoutes.js:18-26 | A formatted lead takes `id` from `_id` and `createdAt` from `date`, and copies name and contact. linkedin/naukri are never empty and equal the stored value when it is truthy. `resume` is the placeholder exactly when there is no resume. The same shape is built at lines 43-50. |
| `AdminRoutes.FormatAll` | ProfileEra-main/server/routes/adminRoutes.js:18 | `leads.map(...)`: one formatted entry per document, at the same position. |
| `AdminRoutes.VerifyReply` | ProfileEra-main/server/routes/adminRoutes.js:10-12 | `/verify` always answers 200 with "Admin access verified". |
| `AdminRoutes.ListReply` | ProfileEra-main/server/routes/adminRoutes.js:15-31 | A thrown find gives 500 "Error fetching leads". Otherwise the reply is 200 with one formatted entry per stored document, newest `createdAt` first. Every stored document's formatting appears, and every entry is the formatting of a stored document. |
| `AdminRoutes.GetReply` | ProfileEra-main/server/routes/adminRoutes.js:34-56 | A thrown lookup gives 500 "Error fetching lead details". A missing id gives 404 "Lead not found". Otherwise the reply is 200 with the formatted document of that id. |
| `AdminRoutes.DeleteReply` | ProfileEra-main/server/routes/adminRoutes.js:59-69 | A thrown delete gives 500 "Error deleting lead". The reply is 404 "Lead not found" iff no document has the id, and 200 "Lead deleted successfully" otherwise. |
| `AdminRoutes.GetAgreesWithList` | ProfileEra-main/server/routes/adminRoutes.js:42-50 | With unique ids, get-by-id returns exactly the list's entry for that id. No other entry carries the id. |
| `AdminRoutes.Handle` | ProfileEra-main/server/routes/adminRoutes.js:7-69 | Every route passes the gate first. A denied request gets the gate's reply and leaves the store unchanged. Verify, list and get leave the store unchanged. Delete changes it exactly as `DeleteById`, and only when the call does not throw. |
| `Server.CorsOrigin` | ProfileEra-main/server/server.js:30-44 | An origin is accepted iff it is absent, empty or one of the four listed origins. Otherwise the reply is the error "Not allowed by CORS". |
| `Server.UploadFilename` | ProfileEra-main/server/server.js:58 | The stored filename starts with the timestamp's digits followed by "-", and ends with the original name. |
| `Server.UploadFilenameRoundTrip` | ProfileEra-main/server/server.js:58 | Splitting a stored filename at its first "-" gives back the timestamp and the original name. |
| `Server.UploadFilenameInjective` | ProfileEra-main/server/server.js:58 | Two uploads get the same filename only if both the millisecond and the original name are the same. |
| `Server.UploadPath` | ProfileEra-main/server/server.js:57 | `req.file.path` for the `uploads` destination is a path under `uploads/` that ends with the stored filename. |
| `Server.StoredResume` | ProfileEra-main/server/server.js:120 | `resume` is set iff a file was uploaded. It is then a truthy path under `uploads/` that ends with "-" ++ the original name. Otherwise it is null. |
| `Server.Render` | ProfileEra-main/server/server.js:128-129 | A template interpolation prints a present field verbatim (even an empty one) and an absent one as "undefined". |
| `Server.NotificationMail` | ProfileEra-main/server/server.js:125-130 | The subject is "New Lead: " ++ name, and an absent field prints "undefined". The text starts "You have a new lead!". It holds a "Name:", "Contact:", "LinkedIn:" and "Naukri:" line for each submitted field. It ends with "Resume: Attached" iff a file is present. |
| `Server.ResumeLine` | ProfileEra-main/server/server.js:129 | The mail's last line ends with "Resume: Attached" iff a file came with the request. |
| `Server.NewLead` | ProfileEra-main/server/server.js:115-121 | The new document holds name, contact, linkedin and naukri exactly as submitted, with no validation, plus the upload path or null. |
| `Server.SubmitContact` | ProfileEra-main/server/server.js:112-145 | A missing body or a thrown save gives 500 "Server error", no mail, and an unchanged store. Otherwise the endpoint appends one new document under a fresh id, holding name, contact, linkedin and naukri verbatim (no validation) and the upload path or null. It answers 201 "Lead saved successfully" with no id and hands the notification mail over. The reply does not depend on mail delivery. |
| `Server.SubmitTwice` | ProfileEra-main/server/server.js:115-122 | Two submissions with identical fields become two documents with different ids. |
| `Server.ServerListReply` | ProfileEra-main/server/server.js:90-97 | A thrown find gives 500 "Error fetching leads". Otherwise the reply is 200 with the stored documents unformatted: a permutation of the collection, sorted by `date` descending. |
| `Server.ServerGetReply` | ProfileEra-main/server/server.js:99-109 | A thrown lookup gives 500. A missing id gives 404 "Lead not found". Otherwise the reply is 200 with the raw stored document of that id. |
| `Server.HandleAdmin` | ProfileEra-main/server/server.js:90-109 | Both read-only routes pass `checkAdminAuth` first. A denied request gets its reply. An admitted one gets the list or get reply over the current collection. |
| `Server.SavedResumeLinkRepeatsUploadDir` | ProfileEra-main/server/server.js:120 | For a lead saved by the server, the router's resume link is protocol://host/uploads/uploads/<ms>-<name>, so the upload directory appears twice. |
| `Server.RouterListFormatsServerList` | ProfileEra-main/server/server.js:92-93 | The router's list is the server's unformatted list with each entry formatted: the same documents in the same order. |
| `AdminDashboard.FilteredLeads` | ProfileEra-main/client/src/components/Admin/AdminDashboard.jsx:50-53 | A lead is shown iff its lowercased name includes the lowercased term or its contact includes the term verbatim. The result is an order-preserving subsequence of `leads`. |
| `AdminDashboard.Matches` | ProfileEra-main/client/src/components/Admin/AdminDashboard.jsx:51-52 | The search test accepts every lead for the empty term. |
| `AdminDashboard.SearchIgnoresNameCase` | ProfileEra-main/client/src/components/Admin/AdminDashboard.jsx:51 | Lower-casing a stored name does not change whether its lead matches: the name test is case-insensitive on ASCII letters. |
| `AdminDashboard.EmptySearchKeepsAll` | ProfileEra-main/client/src/components/Admin/AdminDashboard.jsx:50-53 | An empty search term shows every lead, in order. |
| `AdminDashboard.TotalLeads` | ProfileEra-main/client/src/components/Admin/AdminDashboard.jsx:56 | "Total Leads" is 0 iff there are no leads, and no search shows more rows than it. |
| `AdminDashboard.ResumeCount` | ProfileEra-main/client/src/components/Admin/AdminDashboard.jsx:58 | "Resumes" is exactly the number of leads whose resume is not the placeholder: it plus the number of placeholder leads is the total. So it is ≤ "Total Leads", 0 iff every lead has the placeholder, and equal to the total iff none has. |
| `AdminDashboard.NoFailingKeepsAll` | ProfileEra-main/client/src/components/Admin/AdminDashboard.jsx:58 | If no element fails the filter's test, every element passes it. |
| `AdminDashboard.Dashboard.constructor` | ProfileEra-main/client/src/components/Admin/AdminDashboard.jsx:11-15 | Initial state: no leads, `loading` true, no error, empty search, no lead awaiting deletion. |
| `AdminDashboard.Dashboard.Visible` | ProfileEra-main/client/src/components/Admin/AdminDashboard.jsx:50-53 | The table shows exactly the leads that match the current search term, in their order. With an empty term it shows every lead. |
| `AdminDashboard.Dashboard.SetSearchTerm` | ProfileEra-main/client/src/components/Admin/AdminDashboard.jsx:122 | Typing in the search box changes only the search term. |
| `AdminDashboard.Dashboard.FetchLeads` | ProfileEra-main/client/src/components/Admin/AdminDashboard.jsx:19-32 | A successful fetch replaces `leads` with the response and clears `error`. A failed one keeps `leads` and sets the load-error message. `loading` is false afterwards either way. |
| `AdminDashboard.Dashboard.AskDelete` | ProfileEra-main/client/src/components/Admin/AdminDashboard.jsx:213 | The trash button records the row's id as `deleteId` and changes nothing else. |
| `AdminDashboard.Dashboard.CancelDelete` | ProfileEra-main/client/src/components/Admin/AdminDashboard.jsx:249 | Cancel clears `deleteId` and changes nothing else. |
| `AdminDashboard.Dashboard.HandleDelete` | ProfileEra-main/client/src/components/Admin/AdminDashboard.jsx:38-48 | After a successful delete, `leads` is the old list with every entry of that id removed and the rest in order, and `deleteId` is null. A failed delete leaves `leads` and `deleteId` unchanged. |
| `App.IsRegexSpace` | ProfileEra-main/client/src/App.jsx:544 | `\s` holds space, tab and line feed, and no letter or digit. |
| `App.NameInputOk` | ProfileEra-main/client/src/App.jsx:544 | The name guard accepts the empty field, and an accepted name holds no digit. |
| `App.ContactInputOk` | ProfileEra-main/client/src/App.jsx:564 | The contact guard accepts the empty field, and an accepted non-empty contact is never an accepted name. |
| `App.BackspaceAccepted` | ProfileEra-main/client/src/App.jsx:542-567 | Deleting the last character of an accepted name or contact is accepted too. |
| `App.ContactForm.constructor` | ProfileEra-main/client/src/App.jsx:467-469 | The form starts with four empty fields, no resume and status ''. |
| `App.ContactForm.ChangeName` | ProfileEra-main/client/src/App.jsx:542-547 | A name edit is taken iff every character is an ASCII letter or a JavaScript `\s` character. Otherwise the form is unchanged. The other fields never change. |
| `App.ContactForm.ChangeContact` | ProfileEra-main/client/src/App.jsx:562-567 | A contact edit is taken iff it is all digits and at most 10 long, so the stored contact always has at most 10 digits. The other fields never change. |
| `App.ContactForm.ChangeLinkedin` | ProfileEra-main/client/src/App.jsx:582 | Any LinkedIn value is taken, and the other fields are unchanged. |
| `App.ContactForm.ChangeNaukri` | ProfileEra-main/client/src/App.jsx:596 | Any Naukri value is taken, and the other fields are unchanged. |
| `App.ContactForm.ChooseResume` | ProfileEra-main/client/src/App.jsx:611 | The chosen file, or none, becomes `resume`, and the text fields are unchanged. |
| `App.ContactForm.Dismiss` | ProfileEra-main/client/src/App.jsx:487 | Dismissing the success dialog resets the status to '' and keeps the data. |
| `App.ContactForm.Submit` | ProfileEra-main/client/src/App.jsx:496-506 | Nothing is sent, and nothing changes, iff name or contact is empty (both inputs are `required`, lines 548 and 568) or a request is in flight (the button is disabled while sending, line 636). Otherwise the status becomes 'sending'. The payload carries the four fields, with a non-empty name and contact that pass the guards, and the resume only when one is selected. |
| `App.ContactForm.SubmitSettled` | ProfileEra-main/client/src/App.jsx:512-518 | Runs only after a request was sent (status 'sending'). On success the status is 'success', all four fields are '' and `resume` is null. On failure the status is 'error' and the data is kept. |
| `App.ToggleOpen` | ProfileEra-main/client/src/App.jsx:284 | After a click on item i, i is open iff it was closed. Otherwise nothing is open (-1), so at most one item is ever open. |
| `App.ToggleOpenTwice` | ProfileEra-main/client/src/App.jsx:284 | Two clicks on i leave i open iff it was open. Otherwise every item is closed. |
| `App.ProblemAccordion.constructor` | ProfileEra-main/client/src/App.jsx:250 | The problem accordion starts with item 0 open. |
| `App.ProblemAccordion.Click` | ProfileEra-main/client/src/App.jsx:284 | Clicking item i flips whether i is open and leaves every other item closed. |
| `App.AccordionItem.constructor` | ProfileEra-main/client/src/App.jsx:317 | An accordion item starts closed. |
| `App.AccordionItem.Click` | ProfileEra-main/client/src/App.jsx:320 | A click toggles `open`. |
| `App.ClickTwice` | ProfileEra-main/client/src/App.jsx:320 | Two clicks restore the item's original state. |

## Left out

- HTTP plumbing is not modelled: Express wiring, helmet, `trust proxy`, `express.json`, `app.listen`, static serving of `/uploads`, the `GET /` banner, and the axios calls of both client components. Each handler is a function or method over abstract inputs.
- `models/Lead.js` is not part of this model. Its required fields and defaults are unknown. A schema validation failure is one of the causes folded into `saveFails`, and the creation `date` is a parameter.
- A malformed id (a Mongoose `CastError`) is not modelled separately. Ids are natural numbers, and any thrown database call is the `dbFails`/`saveFails` flag.
- Leads.SortByDateDesc: orders documents with equal dates by insertion order. MongoDB leaves that order unspecified, and the contracts claim only "a permutation, newest first".
- Disk side effects are not modelled: multer's write, `existsSync`/`mkdirSync`, and the uploaded file that stays on disk when `save()` throws or the lead is deleted. Only the filename and path strings are. `UploadPath` joins with `/`, as on POSIX.
- Mail delivery and its callback are not modelled, nor any `console.log`/`console.error` line. `SubmitContact` returns the mail handed to the transporter, and its reply is fixed before any delivery outcome.
- `Date.now()` values are parameters. The "New Today" counter is not modelled, because it compares wall-clock dates formatted in the browser's locale.
- `AdminLogin.jsx` is not modelled: it wraps one HTTP call and `localStorage`.
- JSX rendering, animations, the `alert` on a failed delete, the `if (error)` screen and the static marketing sections are not modelled.
- Common.ToLower: lowercases ASCII letters only. JavaScript's `toLowerCase` is full Unicode. `includes` is modelled over code points rather than UTF-16 code units.
- Common.NatToDecimal: is JavaScript's Number-to-string only below 10^21, where JavaScript switches to exponent notation. `Date.now()` never gets near that bound (at most 8.64·10^15).
- App.ContactForm.Submit: `handleSubmit` is split at its `await` into `Submit` and `SubmitSettled`. The browser's `required` check counts only an empty value as missing. Interleavings of two concurrent submissions are not modelled.
- AdminDashboard.Dashboard.FetchLeads: the intermediate `loading = true` state, visible while the request is in flight, is not in the contract. The method sets it before the outcome arrives.
- AdminDashboard.LeadRow: treats `name` and `contact` as strings. A lead without them would make the dashboard's `toLowerCase`/`includes` throw, and that crash is not modelled.
