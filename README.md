# thriftManager: a Dafny model of the server handlers and client pages

thriftManager keeps rotating-savings groups ("thrifts"). A signed-in user
records the members who save with them, the thrift plans they run, and the
contributions members pay into those plans. Each create or update leaves an
entry in an activity log, which feeds the dashboard.

The project models the Express/Mongoose server and the React pages that
drive it:

- **Schemas.** `thrift_model.dfy`, `member_model.dfy`, `contribution_model.dfy`
  and `activity_model.dfy` give each schema's fields, defaults, trimming and
  validation (required fields, enums, minimums).
- **Store.** `store.dfy` is the database: one `Db` object holding the five
  collections and the next id. Its `Valid()` invariant says ids are unique,
  every document has an existing owner, every stored document passes its
  schema, and transaction references are unique.
- **Handlers.** Each handler becomes a Dafny member in `thrift_controller.dfy`,
  `member_controller.dfy`, `contribution_controller.dfy`,
  `dashboard_controller.dfy`, `auth_controller.dfy` and `auth_middleware.dfy`.
  Handlers that write (create, update, register) are methods on `Db`. Listing
  and reading handlers are functions of the collections.
- **Errors and paging.** `error_handler.dfy` is the final error middleware.
  `query.dfy` covers the `parseInt(q) || dflt` query parameters and the
  skip/limit page window.
- **Pages.** `members_page.dfy`, `contributions_page.dfy`, `thrift_list.dfy`,
  `thrift_details_modal.dfy` and `create_thrift.dfy` model the client. Each has
  its filters, page arithmetic and form checks as functions, and its state as
  a class whose event handlers are methods.

Conventions used throughout:

- A request field is an `Option`. `None` stands for an absent field.
  JavaScript truthiness is `PresentText` / `PresentNumber`: `None`, `""` and
  `0` are falsy.
- Dates are the strings the client sends.
- Ids are naturals drawn from `Db.nextId`.
- "Newest first" is the reverse of insertion order.
- Some outside services become parameters of the members that use them:
  - The JWT library (`verify`).
  - Password hashing (`hash`, `matches`).
  - The clock: a `Clock` holds the milliseconds and the displayed time label.
  - `Math.random()`.
  - Date rendering (`render`).
  - Whether a save is `accepted` by the server, when the client models need it.
- An error thrown inside an `asyncHandler` reaches the error middleware.
  There, a status still at 200 becomes 500 (`ErrorHandler.Thrown`).

Where the code and the project's written description differ, the model
follows the code:

- **Deleted user.** When a valid token names a user who no longer exists, the
  middleware's own `catch` turns its 401 into a 500 with the "Server error
  during authentication" prefix. This is the code at
  server/middleware/authMiddleware.js:39-43 and 50-60.
- **Login cookie.** The login cookie lasts 7 days, while the token it carries
  lasts 30 days.
- **Blank maximum.** Creating a thrift with the maximum left blank is refused
  with 400, although the create form's help text says blank means "unlimited".
- **Two scopes for contributions.** The contribution list is scoped by the
  caller's thrifts. The dashboard's contribution total is scoped by who
  recorded the payment.
- **White-space-only names.** A name made only of white space passes both the
  client checks and the handler guard. The schema then trims it to nothing and
  rejects it, which gives a 500.

## Model

| member | source | states |
|---|---|---|
| Common.Trim | server/models/Thrift.js:12 | Mongoose's `trim`: the result has no leading or trailing white space, and it is empty exactly when the input is all white space |
| Common.TrimStartDropsSpace | server/models/Thrift.js:12 | Everything cut off the front is white space |
| Common.TrimEndDropsSpace | server/models/Thrift.js:12 | Everything cut off the back is white space |
| Common.TrimRemovesOuterSpace | server/models/Thrift.js:12 | The trimmed value is a slice of the input with only white space before it and only white space after it, so `trim` removes exactly the outer white space |
| Common.FindFirst | server/controllers/thriftController.js:115 | The first match: a found index satisfies the test and no earlier element does; nothing is found exactly when no element satisfies it |
| Common.TrimIdempotent | server/models/Member.js:12 | Trimming an already trimmed name changes nothing |
| Common.TrimmedFixed | server/models/Thrift.js:45 | A string without outer white space is its own trim |
| Common.Lower | client/src/pages/Members.jsx:65 | `toLowerCase`, character by character: A-Z are mapped to a-z and every other character is kept; the length is unchanged |
| Common.IncludesEmpty | client/src/pages/Members.jsx:65 | `includes("")` is true for every string |
| Common.IncludesIffSlice | client/src/pages/Members.jsx:65 | `hay.includes(needle)` holds exactly when the needle occurs as a slice of the haystack at some index |
| Common.NatToString | server/controllers/contributionController.js:29 | The decimal rendering of a number inside a template literal is non-empty and made only of digits |
| Common.ParseNatToString | server/controllers/contributionController.js:29 | Reading the decimal digits back gives the number again |
| Common.NatToStringInjective | server/controllers/contributionController.js:29 | Different numbers render differently |
| Common.CeilDiv | server/controllers/thriftController.js:83 | `Math.ceil(a / b)`: for a positive b, (r-1)*b < a <= r*b; for a negative b, the mirrored bounds |
| Common.Reverse | server/controllers/thriftController.js:74 | `sort({ createdAt: -1 })`: position k holds the element at position n-1-k of the insertion order |
| Common.ReverseSnoc | server/controllers/thriftController.js:74 | The document inserted last comes first in newest-first order |
| Common.Filter | server/controllers/memberController.js:47 | `find(query)` in insertion order: only matching documents are kept, and every matching document is kept |
| Common.FilterSnoc | server/controllers/memberController.js:47 | Querying after an insertion gives the earlier answer, plus the new document at the end when it matches |
| Common.FilterAll | client/src/pages/Members.jsx:62-69 | A filter that keeps everything returns its input unchanged |
| Common.FilterNone | client/src/pages/Members.jsx:62-69 | A filter that keeps nothing returns the empty list |
| Common.Window | server/controllers/thriftController.js:72-73 | `skip(s).limit(l)` returns at most l items, in order, starting at position s, and exactly min(l, n-s) of them when s < n |
| Common.Split | server/middleware/authMiddleware.js:17 | `split(' ')` gives at least one piece, and no piece contains the separator |
| Common.JoinSplit | server/middleware/authMiddleware.js:17 | Joining the pieces of `split` with the separator gives the original string back |
| Common.SplitNoSep | server/middleware/authMiddleware.js:17 | A string without the separator splits into itself alone |
| Common.SplitAtSep | server/middleware/authMiddleware.js:17 | The piece before the first separator is the first element of the split |
| ActivityModel.NewActivity | server/models/Activity.js:3-14 | `Activity.create`: owner, action, icon and time label are taken from the call, and the timestamp from the clock; with a non-empty action and icon the document passes the schema |
| ThriftModel.TrimField | server/models/Thrift.js:9-13 | A trimmed string field is present exactly when it was given, and holds the trimmed value |
| ThriftModel.DateField | server/models/Thrift.js:14-21 | A Date field is kept when non-empty; an empty string is cast to no date |
| ThriftModel.SetFields | server/models/Thrift.js:3-50 | A thrift built from field values is normalised (trimmed texts, dates non-empty) and keeps its id, owner, amount, frequency, status, maximum and visibility |
| ThriftModel.ThriftDefaults | server/models/Thrift.js:32-50 | The schema defaults: an absent status becomes "pending" and an absent isPublic becomes true; no other field changes |
| ThriftModel.Loaded | server/models/Thrift.js:32-50 | Documents as a query loads them: the same number, each with the schema defaults filled in, so every loaded one has a status and an isPublic flag |
| ThriftModel.LoadedMember | server/models/Thrift.js:32-50 | Every stored document appears, with its defaults filled in, among the loaded ones |
| ThriftModel.DefaultsKeepValidity | server/models/Thrift.js:32-50 | Applying the defaults neither makes a thrift valid nor invalid, and keeps it normalised |
| ThriftModel.ValidThrift | server/models/Thrift.js:11-40 | What the schema accepts: a non-empty name, a start date, an amount of at least 0, a frequency and a status from their enumerations, and a maximum of at least 2 when set |
| ThriftModel.FindThrift | server/controllers/thriftController.js:115 | `findById`: a found index holds that id and no earlier thrift has it; nothing is found exactly when no thrift has the id |
| MemberModel.NewMember | server/models/Member.js:3-25 | A member is created with a trimmed name, and passes the schema exactly when a name was given that is not all white space |
| MemberModel.ValidMember | server/models/Member.js:11-12 | What the schema accepts: a name that is not empty once trimmed |
| MemberModel.FindMember | server/controllers/contributionController.js:33 | `Member.findById`: a found member is stored and has that id; nothing is found exactly when no member has it |
| ContributionModel.ContributionDefaults | server/models/Contribution.js:26-35 | An absent date becomes now and an absent status "Pending"; no other field changes |
| ContributionModel.ValidContribution | server/models/Contribution.js:8-33 | What the schema accepts: a member, a thrift, an amount of at least 0, and a status from the four statuses when set |
| ContributionModel.InsertKeepsRefsUnique | server/models/Contribution.js:36-40 | The `unique` index on transactionRef: adding a contribution whose reference is not taken keeps the references unique |
| ActivityModel.ValidActivity | server/models/Activity.js:9-11 | What the schema accepts: non-empty action, time and icon |
| UserModel.WithoutPassword | server/middleware/authMiddleware.js:37 | `select('-password')` keeps id, name and email |
| UserModel.FindByEmail | server/controllers/authController.js:19 | `User.findOne({ email })`: a found user has that email and no earlier user has it; nothing is found exactly when no user has it |
| UserModel.FindById | server/middleware/authMiddleware.js:37 | `User.findById`: a found user has that id and no earlier user has it; nothing is found exactly when no user has it |
| ErrorHandler.FinalStatus | server/server.js:45 | A status still at 200 when an error arrives becomes 500; any other status is kept |
| ErrorHandler.HandleError | server/server.js:42-52 | The error reply never has status 200, carries the error's message, and carries the stack only outside production |
| ErrorHandler.Thrown | server/server.js:42-52 | An error thrown inside a handler reaches the client with its message; the status is never 200: the code the handler set, or 500 when it set none |
| Query.PageParam | server/controllers/thriftController.js:60-61 | `parseInt(q) \|\| dflt`: a missing, unparsable or zero parameter gives the default; any other value is used as it is |
| Query.Paginate | server/controllers/thriftController.js:60-85 | A listing reply: 500 exactly when the skip would be negative; otherwise status 200, the requested page, the total count, ceil(total/limit) pages and the window at (page-1)*limit |
| Query.PageContents | server/controllers/thriftController.js:62-74 | For page and limit of at least 1, the page is non-empty exactly when page <= ceil(n/limit), and item i is item (page-1)*limit+i of the ordered list |
| Store.Db.constructor | server/server.js:14 | An empty database satisfies the store invariant |
| Store.Db.InsertUser | server/controllers/authController.js:25 | `User.create` with a new email: the user is appended, the invariant is kept, and nothing else changes |
| Store.Db.InsertMember | server/controllers/memberController.js:20-25 | `Member.create`: the member is appended, the invariant is kept, and nothing else changes |
| Store.Db.InsertThrift | server/controllers/thriftController.js:24-33 | `Thrift.create`: the thrift is appended, the invariant is kept, and nothing else changes |
| Store.Db.ReplaceThrift | server/controllers/thriftController.js:146 | `thrift.save()`: only the one thrift is replaced, and the invariant is kept |
| Store.Db.InsertContribution | server/controllers/contributionController.js:22-30 | `Contribution.create` with an unused reference: the contribution is appended, the invariant (unique references included) is kept, and nothing else changes |
| Store.Db.InsertActivity | server/controllers/memberController.js:27-32 | `Activity.create`: the entry is appended, the invariant is kept, and nothing else changes |
| Store.GrowKeepsValid | server/models/Activity.js:4-8 | Adding users and raising the id counter keeps every owner reference and id bound valid |
| Store.AppendThriftOk | server/models/Thrift.js:3-53 | Appending a valid, normalised thrift with a fresh id and an existing owner keeps the thrift collection valid |
| ThriftController.CreatedThrift | server/controllers/thriftController.js:24-33 | The document `Thrift.create` builds: trimmed name, dates, amount, frequency, maximum and status ("pending" when absent) from the request; no description, even when one is sent; public |
| ThriftController.MissingCreateField | server/controllers/thriftController.js:17 | createThrift's guard: name, start date, amount, frequency or maximum is falsy |
| ThriftController.CreatedAction | server/controllers/thriftController.js:38 | The activity text quotes the thrift's name after "New thrift plan created: ", so the name can be read back from it |
| ThriftController.UpdatedAction | server/controllers/thriftController.js:152 | The activity text quotes the thrift's name after "Thrift Updated: ", so the name can be read back from it |
| ThriftController.CreateThrift | server/controllers/thriftController.js:8-52 | 400 when name, start date, amount, frequency or maximum is falsy; 500 when the schema rejects the thrift; otherwise 201 with the stored thrift and one "New thrift plan created" activity. Nothing is written on an error path |
| ThriftController.OwnedThrifts | server/controllers/thriftController.js:71 | `Thrift.find({ userId })` lists exactly the caller's thrifts |
| ThriftController.GetThrifts | server/controllers/thriftController.js:57-91 | The page (25 by default) is the window at (page-1)*limit of the caller's thrifts, newest first, as `find` loads them (schema defaults filled in): at most `limit` of them, each a stored thrift of the caller's, loaded, with a status and an isPublic flag; the total counts all of the caller's thrifts; 500 on a negative skip |
| ThriftController.CreatedThriftListedFirst | server/controllers/thriftController.js:71-74 | A thrift just stored is first on page 1 of its owner's list, as loaded (unchanged when it has a status and an isPublic flag, as a created one does), and the owner's total grows by one |
| ThriftController.MissingUpdateField | server/controllers/thriftController.js:130 | updateThrift's guard: name, start date, amount or frequency is falsy (the maximum is not checked) |
| ThriftController.Overwritten | server/controllers/thriftController.js:136-144 | The update overwrites all nine editable fields from the body (trimmed texts, dates cast), leaves an absent status or isPublic absent in the saved document, and keeps id and owner |
| ThriftController.OverwriteForgetsOldFields | server/controllers/thriftController.js:136-144 | An update's result does not depend on the old field values, only on the id, the owner and the body |
| ThriftController.UpdateThrift | server/controllers/thriftController.js:96-162 | 404 for an unknown id; 403 for another owner's thrift; 400 when name, start date, amount or frequency is falsy; 500 when the save is rejected; otherwise 200 with the overwritten thrift, which replaces the old one in place, plus one "Thrift Updated" activity. Nothing is written on an error path |
| ContributionController.MissingField | server/controllers/contributionController.js:16 | createContribution's guard: member, amount, date or thrift is falsy |
| ContributionController.RandomSuffix | server/controllers/contributionController.js:29 | `Math.floor(Math.random() * 1000)` is below 1000 and is the floor of random*1000 |
| ContributionController.TransactionRefShape | server/controllers/contributionController.js:29 | A reference is "TRN-", a run of digits, a dash and a run of digits |
| ContributionController.SplitAtDash | server/controllers/contributionController.js:29 | Two all-digit prefixes followed by a dash split an equal string in the same place |
| ContributionController.TransactionRefInjective | server/controllers/contributionController.js:29 | `TRN-<millis>-<suffix>` references are equal only when both the millisecond time and the suffix are equal |
| ContributionController.CreatedContribution | server/controllers/contributionController.js:22-30 | The created document takes the caller, member, thrift, amount and date from the request, has status "Pending" and a generated reference, and passes the schema exactly when the amount is not negative |
| ContributionController.MemberNameFor | server/controllers/contributionController.js:32-34 | The activity names the member when found, and "Unknown Member" otherwise |
| ContributionController.ContributionAction | server/controllers/contributionController.js:38 | The activity text is the naira sign, the amount in decimal digits (which read back as the amount), then " contribution received from " and the member's name |
| ContributionController.CreateContribution | server/controllers/contributionController.js:12-49 | 400 when member, amount, date or thrift is falsy; 500 (with the "Server error: " prefix) when the amount is negative or the reference is taken; otherwise 201 with the stored contribution and one activity naming the member. Nothing is written on an error path |
| ContributionController.ScopedContributions | server/controllers/contributionController.js:69-76 | `{ thrift: { $in: thriftIds } }` keeps exactly the contributions to one of those thrifts |
| ContributionController.Populate | server/controllers/contributionController.js:77-78 | `populate`: each contribution carries its member's and thrift's names when they are found, and no member name when the member is missing |
| ContributionController.GetContributions | server/controllers/contributionController.js:56-98 | The page (20 by default) is the window at (page-1)*limit of the contributions into the caller's thrifts, newest first and populated: at most `limit` of them, each stored and into one of the caller's thrifts; the total counts all such contributions; 500 on a negative skip |
| ContributionController.ScopedByThriftNotRecorder | server/controllers/contributionController.js:69-76 | A contribution is listed for a caller exactly when its thrift belongs to the caller, whoever recorded it |
| MemberController.AddedAction | server/controllers/memberController.js:29 | The activity text is never empty, so the activity passes the schema |
| MemberController.CreateMember | server/controllers/memberController.js:10-40 | 400 when the name is falsy; 500 when it is only white space; otherwise 201 with the stored member (trimmed name) and one "New member added" activity. Nothing is written on an error path |
| MemberController.GetMembers | server/controllers/memberController.js:46-50 | Status 200 with exactly the caller's members, unpaginated |
| MemberController.AddedMemberListedLast | server/controllers/memberController.js:47 | A member just added by its owner appears last in that owner's list |
| MemberController.OthersMembersNotListed | server/controllers/memberController.js:47 | Another user's new member does not change the caller's list |
| DashboardController.TotalMembers | server/controllers/dashboardController.js:14 | `countDocuments({ userId })` equals the length of the member listing |
| DashboardController.SumAmounts | server/controllers/dashboardController.js:18-25 | `$sum` of non-negative amounts is non-negative |
| DashboardController.TotalContributionAmount | server/controllers/dashboardController.js:18-25 | The sum over the contributions the caller recorded is 0 when there are none and non-negative when every stored contribution passes the schema |
| DashboardController.SumSnoc | server/controllers/dashboardController.js:20 | A new contribution adds its amount to the sum |
| DashboardController.TotalAfterContribution | server/controllers/dashboardController.js:18-25 | Recording a contribution raises the recorder's total by its amount and leaves every other user's total unchanged |
| DashboardController.ActiveThrifts | server/controllers/dashboardController.js:29-32 | The count is the number of the caller's thrifts whose status is "active", so it never exceeds the number of the caller's thrifts |
| DashboardController.ActiveAmongOwned | server/controllers/dashboardController.js:29-32 | Matching owner and status together selects the same thrifts, in order, as taking the caller's thrifts and then the active ones |
| DashboardController.ActiveCountBound | server/controllers/dashboardController.js:29-32 | The caller's active thrifts are at most the caller's thrifts |
| DashboardController.CreatedThriftNotActive | server/controllers/dashboardController.js:29-32 | A thrift created without a status starts "pending" and does not change the active count |
| DashboardController.DashboardStats | server/controllers/dashboardController.js:35-60 | Three tiles in order: the caller's member count, the caller's contribution total, and the number of the caller's thrifts with status "active"; each with trend "up" |
| DashboardController.OtherRecorderListedNotTotalled | server/controllers/dashboardController.js:19 | A contribution another user records into one of the caller's thrifts is listed for the caller, and leaves the caller's dashboard total unchanged |
| DashboardController.NewestActivities | server/controllers/dashboardController.js:78-79 | Exactly the caller's activities, newest first |
| DashboardController.FeedItemOf | server/controllers/dashboardController.js:83-87 | A feed item keeps the action and icon; its time is the stored label, or the rendered timestamp when the label is empty |
| DashboardController.DashboardActivities | server/controllers/dashboardController.js:75-100 | At most five items: the first five of the caller's activities, newest first, formatted |
| DashboardController.NewestSnoc | server/controllers/dashboardController.js:78-79 | A newly logged activity goes to the front of its owner's feed and leaves other users' feeds unchanged |
| DashboardController.LoggedActivityHeadsFeed | server/controllers/dashboardController.js:78-87 | After logging, the new activity heads its owner's feed and the earlier items move down by one |
| DashboardController.FeedUsesStoredTime | server/controllers/dashboardController.js:85 | Activities that pass the schema always show their stored time label, never a rendered timestamp |
| DashboardController.AllActivitiesDebug | server/controllers/dashboardController.js:104-114 | The first ten activities of all users, in insertion order |
| AuthController.GenerateToken | server/controllers/authController.js:6-10 | The token carries the user id and expires after 30 days |
| AuthController.SessionCookie | server/controllers/authController.js:31-37 | The "token" cookie is httpOnly and strict, secure exactly in production, with the given lifetime |
| AuthController.RegisterUser | server/controllers/authController.js:14-50 | 400 when the email is taken, with nothing written; otherwise the user is stored with the hashed password, the reply is 201 without the password, and the cookie lives exactly as long as the token |
| AuthController.LoginUser | server/controllers/authController.js:54-78 | Success exactly when the email is known and the password matches its hash; success sets the "token" cookie, httpOnly, same-site strict, secure exactly in production, carrying that user's token and lasting 7 days, so it expires before the token does; any failure is 401 "Invalid credentials" with no cookie |
| AuthController.RegisteredUserCanLogIn | server/controllers/authController.js:14-78 | A user registered with a password can log in with that same password |
| AuthController.GetMe | server/controllers/authController.js:83-93 | 200 with the attached user when there is one, otherwise 401 "Not authenticated" |
| AuthMiddleware.RequestToken | server/middleware/authMiddleware.js:8-19 | A truthy cookie token wins. Otherwise the second space-separated piece of an Authorization header starting with "Bearer" is used. With neither there is no token |
| AuthMiddleware.BearerHeaderToken | server/middleware/authMiddleware.js:16-17 | A "Bearer <t>" header with no cookie yields exactly t |
| AuthMiddleware.Classify | server/middleware/authMiddleware.js:50-60 | JWT errors halt with 401 "token is invalid or expired"; any other error halts with 500 and the "Server error during authentication: " prefix |
| AuthMiddleware.Protect | server/middleware/authMiddleware.js:7-62 | 401 without a token. Otherwise a failed verification or lookup is classified as above. An unknown user gives 500 (the 401 thrown at 41-42 is caught by the handler's own `catch`). A known user is attached without the password and `next` runs exactly once |
| MembersPage.FromServer | client/src/pages/Members.jsx:42-44 | A member loaded from the server keeps name and phone and has no status |
| MembersPage.FromServerAll | client/src/pages/Members.jsx:42-44 | The whole loaded list is converted member by member |
| MembersPage.FilterMembers | client/src/pages/Members.jsx:62-69 | A member is shown exactly when it matches the status filter and the case-insensitive search on name or phone; order is kept |
| MembersPage.NoPhoneSearchesNameOnly | client/src/pages/Members.jsx:64-66 | A member without a phone matches exactly when the lower-cased term occurs in the lower-cased name |
| MembersPage.UnfilteredShowsAll | client/src/pages/Members.jsx:62-69 | Filter "All" with an empty search shows the whole list unchanged |
| MembersPage.StatusFilterHidesServerMembers | client/src/pages/Members.jsx:62-69 | Any status filter other than "All" hides every member loaded from the server, because those carry no status |
| MembersPage.PageSlice | client/src/pages/Members.jsx:145-147 | Page p shows at most 10 members: those at positions (p-1)*10 onwards of the filtered list |
| MembersPage.TotalPages | client/src/pages/Members.jsx:151 | ceil(total/10) pages, counted from all loaded members |
| MembersPage.PageNumbers | client/src/pages/Members.jsx:152-155 | The buttons are numbered 1 to totalPages |
| MembersPage.EmptyForm | client/src/pages/Members.jsx:115-123 | The reset form has an empty name and phone, status "Pending" and today's date |
| MembersPage.ToRequest | client/src/pages/Members.jsx:107-113 | The posted body carries the form's name and phone |
| MembersPage.AcceptedFormPassesServerGuard | client/src/pages/Members.jsx:100-103 | A form the page lets through has a name that passes the server's 400 check |
| MembersPage.MembersPageState.constructor | client/src/pages/Members.jsx:11-32 | The page starts on page 1 with no members, filter "All", an empty search and an empty form |
| MembersPage.MembersPageState.CurrentMembers | client/src/pages/Members.jsx:145-147 | The members shown are exactly the current page's slice of the filtered list (positions (p-1)*10 up to p*10 of the members matching both the status filter and the search): at most 10, each matching the filter and the search |
| MembersPage.MembersPageState.LoadMembers | client/src/pages/Members.jsx:42-44 | The loaded list replaces the members, and its length becomes the total |
| MembersPage.MembersPageState.GoToPage | client/src/pages/Members.jsx:149 | A page-number click moves to that page and changes nothing else |
| MembersPage.MembersPageState.HandleAddMember | client/src/pages/Members.jsx:95-128 | A missing name or phone sends nothing and changes nothing; otherwise the form is posted, and an accepted post closes the dialog, resets the form and asks for a refetch |
| ContributionsPage.FilterContributions | client/src/pages/Contributions.jsx:100-112 | A contribution is shown exactly when it matches the status filter and the case-insensitive search on member name, thrift name or reference; order is kept |
| ContributionsPage.FoundByOwnReference | client/src/pages/Contributions.jsx:104-108 | Searching for a contribution's full reference always finds it |
| ContributionsPage.UnfilteredShowsAll | client/src/pages/Contributions.jsx:100-112 | Filter "All" with an empty search shows the whole page unchanged |
| ContributionsPage.StatusBadgeClass | client/src/pages/Contributions.jsx:114-122 | Each of the four schema statuses gets its own badge; any other value gets the secondary badge |
| ContributionsPage.BadgesDistinct | client/src/pages/Contributions.jsx:114-122 | Two different statuses never share a badge |
| ContributionsPage.ClientLimitIsServerDefault | client/src/pages/Contributions.jsx:28 | The page's limit of 20 lists the same page as the server's default |
| ContributionsPage.ShowPagination | client/src/pages/Contributions.jsx:295 | The controls are shown exactly when the server's page count for 20 per page is above one |
| ContributionsPage.EmptyForm | client/src/pages/Contributions.jsx:160-167 | The reset form has no member, thrift or amount, and today's date |
| ContributionsPage.ToRequest | client/src/pages/Contributions.jsx:153-158 | The posted body carries member, thrift, amount and date from the form |
| ContributionsPage.FormAccepted | client/src/pages/Contributions.jsx:147 | The page's check before posting: member, thrift, amount and date filled, and a positive amount |
| ContributionsPage.AcceptedFormPassesServerChecks | client/src/pages/Contributions.jsx:147-150 | A form the page lets through passes the server's 400 guard and the schema's amount minimum |
| ContributionsPage.ContributionsPageState.constructor | client/src/pages/Contributions.jsx:20-45 | The page starts on page 1 of 1 with nothing loaded, filter "All", an empty search and an empty form |
| ContributionsPage.ContributionsPageState.FetchContributions | client/src/pages/Contributions.jsx:50-73 | A reply replaces the rows and the page, page-count and total counters with the server's listing; a failure keeps them and shows "Failed to fetch contributions." |
| ContributionsPage.ContributionsPageState.HandlePageChange | client/src/pages/Contributions.jsx:132-136 | Moves to a page only when it lies within 1..totalPages; otherwise nothing changes |
| ContributionsPage.ContributionsPageState.HandleAddContribution | client/src/pages/Contributions.jsx:144-172 | An incomplete form, or one with an amount that is not positive, sends nothing and changes nothing; otherwise it is posted, and an accepted post closes the dialog, resets the form and refetches page 1 |
| ThriftList.RowNumber | client/src/pages/ThriftList.jsx:129 | The row numbers on page p run within (p-1)*25+1 .. p*25 |
| ThriftList.ClientLimitIsServerDefault | client/src/pages/ThriftList.jsx:19 | The page's limit of 25 lists the same page as the server's default |
| ThriftList.RowNumberIsListPosition | client/src/pages/ThriftList.jsx:129 | Row n of any page shows the n-th of the caller's thrifts, newest first, across all pages, as loaded with the schema defaults |
| ThriftList.ThriftListState.constructor | client/src/pages/ThriftList.jsx:9-18 | The page starts on page 1 of 1 with no rows, no error and both dialogs closed |
| ThriftList.ThriftListState.FetchThrifts | client/src/pages/ThriftList.jsx:21-37 | A reply to the current page (25 per page) replaces the rows and the page count; a failure keeps them and shows the server's message |
| ThriftList.ThriftListState.HandlePageChange | client/src/pages/ThriftList.jsx:62-66 | Moves to a page only when it lies within 1..totalPages; otherwise nothing changes |
| ThriftList.ThriftListState.OpenCreateThrift | client/src/pages/ThriftList.jsx:84 | Opens the create dialog and changes nothing else |
| ThriftList.ThriftListState.HandleThriftCreationSuccess | client/src/pages/ThriftList.jsx:43-47 | Closes the create dialog and goes back to page 1 |
| ThriftList.ThriftListState.HandleViewDetails | client/src/pages/ThriftList.jsx:68-71 | Opens the details dialog on the chosen thrift |
| ThriftList.ThriftListState.CloseThriftDetails | client/src/pages/ThriftList.jsx:50-53 | Closes the details dialog and clears the selection |
| ThriftDetailsModal.TextOr | client/src/components/ThriftDetailsModal.jsx:19-29 | `x \|\| dflt` on a text field: the value when truthy, otherwise the default |
| ThriftDetailsModal.InitFormData | client/src/components/ThriftDetailsModal.jsx:17-33 | The form is filled from the thrift with the defaults: a falsy status becomes "pending", a falsy amount 0 and a falsy maximum blank, and isPublic is true unless the thrift stores a flag |
| ThriftDetailsModal.RequiredFilled | client/src/components/ThriftDetailsModal.jsx:77 | The first check: name, start date, amount and frequency are truthy |
| ThriftDetailsModal.SubmitError | client/src/components/ThriftDetailsModal.jsx:77-85 | The checks in order: required fields, then a positive amount, then a filled maximum of at least 2. A form passes exactly when all three hold |
| ThriftDetailsModal.DataToSend | client/src/components/ThriftDetailsModal.jsx:87-91 | Every form field is sent with the amount as a number, and a blank maximum is left out |
| ThriftDetailsModal.CheckedFormPassesUpdateGuard | client/src/components/ThriftDetailsModal.jsx:77-91 | A form that passes the dialog's checks never meets the server's 400 |
| ThriftDetailsModal.CheckedFormSaves | client/src/components/ThriftDetailsModal.jsx:77-93 | A checked form whose name is not only white space and whose frequency and status are allowed values is saved as a valid thrift |
| ThriftDetailsModal.UneditedSaveKeepsThrift | client/src/components/ThriftDetailsModal.jsx:17-93 | Saving a stored thrift without edits writes it back unchanged, when it has its own status, flag and description and a positive amount |
| ThriftDetailsModal.ThriftDetailsState.constructor | client/src/components/ThriftDetailsModal.jsx:17-33 | The dialog opens in view mode with the form filled from the thrift |
| ThriftDetailsModal.ThriftDetailsState.StartEditing | client/src/components/ThriftDetailsModal.jsx:362-367 | The edit button only switches to edit mode |
| ThriftDetailsModal.ThriftDetailsState.Cancel | client/src/components/ThriftDetailsModal.jsx:334-351 | Cancel returns to view mode with no error and the form refilled from the thrift |
| ThriftDetailsModal.ThriftDetailsState.HandleSubmit | client/src/components/ThriftDetailsModal.jsx:69-112 | A failing check shows its message and sends nothing. Otherwise the body is sent and passes the server's 400 guard. The dialog then leaves edit mode on success, or shows the server's message. The form is never changed |
| CreateThrift.ResetForm | client/src/components/CreateThrift.jsx:42-54 | Every field is cleared, the frequency goes back to "Weekly", and the thrift is public |
| CreateThrift.BuildThriftData | client/src/components/CreateThrift.jsx:64-74 | The body: the frequency lower-cased; a blank end date or description left out; no status sent |
| CreateThrift.OptionsAreFrequencies | client/src/components/CreateThrift.jsx:180-183 | Each offered frequency, lower-cased, is a value the schema allows |
| CreateThrift.BlankMaximumRefused | client/src/components/CreateThrift.jsx:224 | A blank maximum, offered as "unlimited", is refused by the server with 400 |
| CreateThrift.FilledFormCreatesThrift | client/src/components/CreateThrift.jsx:57-102 | A filled form passes the server's guard and creates a valid thrift. The description and the visibility chosen in the form are not kept |
| CreateThrift.CreateThriftState.constructor | client/src/components/CreateThrift.jsx:10-20 | The dialog starts with the reset form, not loading |
| CreateThrift.CreateThriftState.ResetFormAndMessages | client/src/components/CreateThrift.jsx:31-54 | Hiding the dialog or resetting it restores the reset form |
| CreateThrift.CreateThriftState.HandleSubmit | client/src/components/CreateThrift.jsx:57-102 | The body built from the form is sent; on success the parent is told and the form reset, otherwise the form is kept; loading always ends |

## Left out

- Database internals are not modelled:
  - Mongoose's casting of ids to ObjectId, and `populate`'s field selection beyond the name.
  - The order of documents with equal `createdAt`. Newest-first is modelled as reverse insertion order.
  - Connection failures of any query except the user lookup in the auth middleware, which the model keeps as the `dbFailure` parameter.
- Outside services are parameters, not models:
  - Signing and checking JWTs.
  - bcrypt hashing. The User schema, with its pre-save hashing, is not part of this model.
  - `Math.random`. Its value is passed in.
  - The clock. Its value is passed in.
- `toLocaleString` and date rendering are left out. The activity time label is an opaque non-empty string, the dashboard's fallback is the `render` parameter, and the total tile's currency formatting is not modelled (the tile holds the number).
- Dates are strings. Mongoose's Date casting is modelled only as "an empty string becomes no date". An unparsable date string is not rejected by the model.
- `parseFloat` and `parseInt` on form fields are modelled with integers. Fractional amounts are not represented.
- ContributionController.ContributionAction: the amount is written as plain decimal digits. `toLocaleString` groups the digits ("1,000" where the model writes "1000").
- AuthController.RegisterUser: the `catch` path (500 "Server error" when `User.create` rejects) is not modelled. In the model the name, email and password are always strings, and the User schema's validation is not part of this model, so creation cannot fail.
- Common.Lower: lower-cases only A-Z, not the full Unicode mapping of `toLowerCase`.
- `Activity.create` failing after a thrift, member or contribution was stored is not modelled, because the time label is never empty. The logged activity is always valid.
- ThriftDetailsModal.SubmitError: a typed amount of "0" is the number 0 in the model, so it gets the required-fields message. In the page the string "0" is truthy and gets the positive-amount message instead. Either way the form is refused.
- Rendering and navigation are not modelled: JSX, toasts, the loading spinners (except the create dialog's flag), Stat.js, routes and App.jsx.
- The members page's status badge and delete button are not modelled, and neither are the contributions page's status icons (`getStatusIcon`).
- Per-keystroke `handleChange`/`handleInputChange` updates and the dropdown fetch for the add-contribution dialog (`fetchDropdownData`) are not modelled.
- An exception thrown by the next handler inside the middleware's `try` would be reclassified by its `catch`. That path is not modelled: `Protect` stops after calling `next` once.
- React effects are not modelled: when they fire, and the double fetch after a page change or a successful creation. Re-fetching is returned as a request (`refetch`, `refetchPage`) or modelled by calling `FetchThrifts` again.
- Concurrency between requests is not modelled. Each handler runs alone against the store.
