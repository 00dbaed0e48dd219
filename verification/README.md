# Dashboard admin screens and login server, modelled in Dafny

This project models the behaviour of a small admin dashboard and its login
server. The dashboard is a React and Chakra UI single-page app. The server
is a Go program with one endpoint. The model covers:

- the state machines of the admin screens: orders, users, packages, the
  products page with its tables and "add" dialogs, and the profile page;
- the sign-in form and the navbar menu, which read and write browser
  storage;
- the route table with its two guards;
- the `/login` endpoint with its CORS middleware.

Every screen is an immutable record of its component state. Every click
or keystroke is a pure function from the old state to the new one. Time,
randomness, the JWT signer and the network are parameters.

Two behaviours of the code are modelled as written, even though a reader
might expect otherwise:

- Packages screen: the draft product list shares its product objects with
  the selected package, so edits to existing rows survive "Cancel"
  (`PackageEditor.CancelKeepsFieldEdits`). Rows added and then cancelled
  do not survive (`PackageEditor.CancelDiscardsAddedRows`).
- Users screen: the delete confirmation is shown only for a truthy
  pending id, so a user with id 0 could never be deleted
  (`Users.IdZeroNeverConfirmed`).

Some plain facts about the code that the model reflects:

- no form validates its fields, except that sign-in rejects an empty
  username or password;
- only sign-in calls a server;
- nothing is ever rolled back;
- the profile page's three buttons have no handler, so nothing there is
  saved.

Files, one module each:

- `common.dfy`: `Option`, order-preserving `Filter`, `RemoveAt`.
- `text.dfy`: JavaScript `trim`, `split` and `join`; the image-list parser
  and its round trip.
- `orders.dfy`: the orders screen.
- `users.dfy`: the users screen.
- `package_editor.dfy`: the packages screen, with an explicit heap of
  product objects.
- `product_rows.dfy`: the row type and status cell shared by two tables;
  the sort arrow.
- `catalog.dfy`: the products page.
- `packages_table.dfy`: the packages table and its "add" dialog.
- `product_types.dfy`: the product types table and its "add" dialog.
- `profile.dfy`: the profile page.
- `session.dfy`: the sign-in form, the navbar name, log-out.
- `routing.dfy`: routes and guards.
- `login_server.dfy`: the Go login server.
- `flows.dfy`: end-to-end sign-in and sign-out.

## Model

| member | source | states |
|---|---|---|
| Common.Filter | src/views/admin/orders/orders.tsx:110 | `Array.prototype.filter`: keeps exactly the elements the predicate accepts, each with its original multiplicity, as a subsequence in original order |
| Common.FilterIdempotent | src/views/admin/marketplace/index.tsx:95 | filtering twice with the same predicate is filtering once |
| Common.FilterKeepsAll | src/views/admin/marketplace/index.tsx:95 | a filter every element passes returns the list unchanged |
| Common.RemoveAt | src/views/admin/dataTables/packages.tsx:79 | filtering out position `index` shifts later elements down by one; an index outside the list removes nothing |
| Text.TrimStart | src/views/admin/dataTables/components/ProductTypeTable.tsx:80 | drops exactly the leading whitespace: the result is a suffix that is empty or starts with a non-whitespace character |
| Text.TrimEnd | src/views/admin/dataTables/components/ProductTypeTable.tsx:80 | drops exactly the trailing whitespace: the result is a prefix that is empty or ends with a non-whitespace character |
| Text.Trim | src/views/admin/dataTables/components/ProductTypeTable.tsx:80 | `String.prototype.trim`: the result is a contiguous slice of the input with no whitespace at either end |
| Text.TrimOfTrimmed | src/views/admin/dataTables/components/ProductTypeTable.tsx:80 | trimming a string without surrounding whitespace returns it unchanged |
| Text.TrimLeadingSpace | src/views/admin/dataTables/components/ProductTypeTable.tsx:80 | a space in front of a trimmed string is removed by trimming |
| Text.Split | src/views/admin/dataTables/components/ProductTypeTable.tsx:80 | `split(",")`: one piece more than separators, no piece contains the separator, and joining the pieces with it gives the input back |
| Text.SplitJoin | src/views/admin/dataTables/components/ProductTypeTable.tsx:80 | the converse round trip: splitting the join of separator-free pieces gives the pieces back |
| Text.NatToString | src/views/admin/dataTables/packages.tsx:27-37 | the decimal form a template literal gives a natural number: digits only, no leading zero, and its decimal value is the number |
| Text.ParseImageList | src/views/admin/dataTables/components/ProductTypeTable.tsx:80 | `value.split(",").map(s => s.trim())`: the i-th URL is the trimmed i-th comma-separated piece of the value, whose pieces joined back with commas are the value; one URL more than commas, each comma-free and trimmed |
| Text.EmptyImageField | src/views/admin/dataTables/components/ProductTypeTable.tsx:80 | an empty images field parses to a list holding one empty URL |
| Text.ImageListRoundTrip | src/views/admin/dataTables/components/ProductTypeTable.tsx:319 | parsing the displayed `join(", ")` of a non-empty list of trimmed, comma-free URLs gives the list back |
| Orders.SeedOrder | src/views/admin/orders/orders.tsx:28-41 | seed order `i` has id `i+1`; delivery for even positions, self pickup for odd ones; "Dispatched" every third position, else "Pending" |
| Orders.SeedOrders | src/views/admin/orders/orders.tsx:28-41 | ten seed orders, position `i` being seed order `i` |
| Orders.SeedActions | src/views/admin/orders/orders.tsx:226-246 | on the seed list, delivery assignment is offered exactly for ids 3, 5, 9 and pickup exactly for ids 2, 6, 8 |
| Orders.InitialPage | src/views/admin/orders/orders.tsx:44-49 | initial state: filter "All", delivery method "Wolt", nothing selected, both dialogs closed |
| Orders.SetStatus | src/views/admin/orders/orders.tsx:58-62 | the status `map`: same length; orders with another id unchanged; orders with the id get the status, other fields unchanged |
| Orders.SetStatusIdempotent | src/views/admin/orders/orders.tsx:58-62 | repeating a status action changes nothing |
| Orders.SetStatusAbsentId | src/views/admin/orders/orders.tsx:74-80 | an id no order carries leaves the list unchanged |
| Orders.ViewOrder | src/views/admin/orders/orders.tsx:52-55 | View selects the order and opens the details dialog, nothing else changes |
| Orders.DispatchOrder | src/views/admin/orders/orders.tsx:57-64 | the order becomes "Dispatched" and the details dialog closes; selection, filter and delivery state kept |
| Orders.MakeAvailableForPickup | src/views/admin/orders/orders.tsx:73-82 | the order becomes "Available for Pickup" and the details dialog closes |
| Orders.OpenDeliveryDialog | src/views/admin/orders/orders.tsx:237-246 | "Assign Delivery" opens the delivery dialog; orders, selection, details dialog, method and filter unchanged |
| Orders.ChooseDeliveryMethod | src/views/admin/orders/orders.tsx:275-283 | the radio group sets the method to one of "Wolt" and "In-House Team"; everything else unchanged |
| Orders.DeliveryStatus | src/views/admin/orders/orders.tsx:95 | the status is "Delivery via " followed by the method, and differs from the three fixed statuses |
| Orders.DeliveryStatusInjective | src/views/admin/orders/orders.tsx:95 | two assignments give the same status iff they used the same method |
| Orders.AssignDelivery | src/views/admin/orders/orders.tsx:91-99 | the selected order gets "Delivery via <method>"; only the delivery dialog closes, selection, details dialog, method and filter kept |
| Orders.CloseDetails | src/views/admin/orders/orders.tsx:199 | closing the details dialog keeps orders, selection, filter, delivery dialog and method |
| Orders.CloseDeliveryDialog | src/views/admin/orders/orders.tsx:265 | closing the delivery dialog keeps orders, selection, details dialog, filter and the chosen method |
| Orders.SetFilter | src/views/admin/orders/orders.tsx:123-126 | the filter drop-down sets the filter only; orders, selection, both dialogs and method unchanged |
| Orders.FilteredOrders | src/views/admin/orders/orders.tsx:109-110 | "All" shows every order; another filter shows exactly the orders with that status, in order, with multiplicity |
| Orders.ActionButtonsExclusive | src/views/admin/orders/orders.tsx:226-246 | with `OffersPickup` and `OffersDelivery` the two button conditions (pending self-pickup, pending delivery), the two buttons never appear together, and neither appears for a non-pending order |
| Orders.NoActionAfterTransition | src/views/admin/orders/orders.tsx:57-107 | after any of the three actions the acted-on order's entry in the list offers no action button |
| Orders.StaleDeliveryDialog | src/views/admin/orders/orders.tsx:91-99 | after an assignment the details dialog stays open on the old pending snapshot and still offers "Assign Delivery"; a second assignment overwrites the first |
| Orders.BadgeColorOf | src/views/admin/orders/orders.tsx:170-178 | gray iff "Pending"; blue iff it mentions "Delivery"; orange iff "Available for Pickup"; green otherwise |
| Orders.BadgeAfterTransitions | src/views/admin/orders/orders.tsx:170-178 | dispatch gives green, pickup orange, any delivery assignment blue |
| Orders.DeliveryMethodStaysValid | src/views/admin/orders/orders.tsx:49 | every screen transition keeps the delivery method one of the two radio options |
| Users.InitialPage | src/views/admin/marketplace/index.tsx:79-84 | initial state: nothing selected, no dialog, no pending delete |
| Users.DeleteUser | src/views/admin/marketplace/index.tsx:95 | exactly the users with a different id remain, in order, with multiplicity |
| Users.DeleteAbsentId | src/views/admin/marketplace/index.tsx:95 | deleting an absent id leaves the list unchanged |
| Users.DeleteTwice | src/views/admin/marketplace/index.tsx:95 | deleting the same id twice is deleting it once |
| Users.ViewUser | src/views/admin/marketplace/index.tsx:88-91 | View selects the user and opens the details dialog; the list is untouched |
| Users.CloseDetails | src/views/admin/marketplace/index.tsx:177 | closing the details dialog keeps list, selection and pending delete |
| Users.RequestDelete | src/views/admin/marketplace/index.tsx:163 | the Delete button records the row's id as pending, nothing else |
| Users.ConfirmDelete | src/views/admin/marketplace/index.tsx:94-97 | "Yes, Delete" removes the pending id's users and clears the pending id; the selection is not cleared |
| Users.CancelDelete | src/views/admin/marketplace/index.tsx:255 | cancelling clears the pending id and keeps the list |
| Users.IdZeroNeverConfirmed | src/views/admin/marketplace/index.tsx:236 | the dialog is rendered iff the pending id is truthy (`ConfirmationShown`), so a request to delete id 0 shows no confirmation |
| Users.RequestThenConfirm | src/views/admin/marketplace/index.tsx:163 | request then confirm: the id is gone, every other user kept in order, pending cleared |
| PackageEditor.View | src/views/admin/dataTables/packages.tsx:255-272 | the rows the dialog shows are the current values of the listed product objects |
| PackageEditor.SelectPackage | src/views/admin/dataTables/packages.tsx:113 | clicking a package selects that package object and keeps the editor valid |
| PackageEditor.ModifyPackage | src/views/admin/dataTables/packages.tsx:58-63 | without a selection nothing happens; otherwise the draft is a new list of the selected package's very product objects, and the dialog opens |
| PackageEditor.FreshAllocationFrame | src/views/admin/dataTables/packages.tsx:66-69 | allocating a new product object changes the view of no existing list |
| PackageEditor.AllocationKeepsViews | src/views/admin/dataTables/packages.tsx:66-69 | the views of the draft, the selected package and every package survive an allocation |
| PackageEditor.AddProductRow | src/views/admin/dataTables/packages.tsx:65-70 | the draft keeps its objects and gains one fresh `{id:'', name:'', quantity:1}` object at the end; every other list looks the same |
| PackageEditor.ApplyEdit | src/views/admin/dataTables/packages.tsx:74 | `row[field] = value` sets that field and keeps the others |
| PackageEditor.ChangeProduct | src/views/admin/dataTables/packages.tsx:72-76 | the edit lands in the draft row's object in place: that heap object takes the edit and every other object is unchanged, so only that row of the draft changes; an index outside the draft changes nothing |
| PackageEditor.RemoveProductRow | src/views/admin/dataTables/packages.tsx:78-81 | the draft is the same objects without the one at `index`, others in order; nothing in the heap changes |
| PackageEditor.SaveChanges | src/views/admin/dataTables/packages.tsx:83-87 | the selected package becomes a copy with the draft as products; the package list is untouched; the dialog closes |
| PackageEditor.CancelModal | src/views/admin/dataTables/packages.tsx:287 | Cancel only closes the dialog |
| PackageEditor.CancelKeepsFieldEdits | src/views/admin/dataTables/packages.tsx:58-87 | editing an existing row then cancelling still changes that row, in the selected package and in the package list |
| PackageEditor.CancelDiscardsAddedRows | src/views/admin/dataTables/packages.tsx:58-87 | a row added then cancelled never reaches the selected package |
| PackageEditor.AddThenEditThenCancel | src/views/admin/dataTables/packages.tsx:58-87 | modify, add a row, edit an earlier row, cancel: the selected package shows exactly the edit and not the added row |
| PackageEditor.SeedStatus | src/views/admin/dataTables/packages.tsx:29 | seed package `k` is "Available" exactly when its id is odd |
| PackageEditor.SeedPackage | src/views/admin/dataTables/packages.tsx:26-39 | seed package `k` has id `k+1` and its own two product objects |
| PackageEditor.SeedPackages | src/views/admin/dataTables/packages.tsx:26-39 | fifteen packages, ids 1 to 15, odd ids available |
| PackageEditor.SeedHeap | src/views/admin/dataTables/packages.tsx:35-38 | thirty product objects, quantities 10 and 5 alternating |
| PackageEditor.InitialEditor | src/views/admin/dataTables/packages.tsx:26-56 | the initial screen is valid, with fifteen packages of two products (10 and 5) each, nothing selected |
| PackageEditor.SeedPackageFacts | src/views/admin/dataTables/packages.tsx:35-38 | each seed package names two distinct existing objects with quantities 10 and 5 |
| PackageEditor.SeedEditorFacts | src/views/admin/dataTables/packages.tsx:26-56 | the seed state satisfies the editor invariant |
| ProductRows.StyleOf | src/views/admin/dataTables/components/PackagesTable.tsx:73-82 | green check iff "Ready to Order", red cancel iff "In Repair", orange error iff "Occupied", gray without icon otherwise |
| ProductRows.SortIndicator | src/views/admin/dataTables/components/DevelopmentTable.tsx:119 | no arrow iff unsorted; up arrow ascending, down arrow descending |
| ProductRows.SortIndicatorDistinguishes | src/views/admin/dataTables/components/PackagesTable.tsx:128 | the header text tells the three sort states apart |
| Catalog.InitialPage | src/views/admin/dataTables/index.tsx:33-36 | nothing selected, cannot order, dialog closed, products view |
| Catalog.ProductClick | src/views/admin/dataTables/index.tsx:39-49 | every click selects and opens the dialog; `canOrder` iff "Ready to Order" |
| Catalog.ClickRow | src/views/admin/dataTables/components/DevelopmentTable.tsx:38-39 | clicking row `index` reports that row's record |
| Catalog.CloseModal | src/views/admin/dataTables/index.tsx:102 | closing keeps the selection and `canOrder` |
| Catalog.ToggleView | src/views/admin/dataTables/index.tsx:71 | the switch flips the view flag only |
| Catalog.Heading | src/views/admin/dataTables/index.tsx:65 | the heading is "Product Types" iff the switch is on, "Products" iff off |
| Catalog.TableData | src/views/admin/dataTables/index.tsx:78-90 | both branches of the view conditional pass the same products data |
| Catalog.ToggleChangesOnlyLabels | src/views/admin/dataTables/index.tsx:78-90 | the heading flips but both views pass the same products data; toggling twice is no change |
| Catalog.TransitionsKeepConsistent | src/views/admin/dataTables/index.tsx:39-49 | every transition keeps `canOrder` in step with the selected product |
| Catalog.DialogAgreesWithStatusCell | src/views/admin/dataTables/index.tsx:108-134 | the Order button (`OrderButtonShown`, shown when `canOrder`) appears iff the status cell is a green check; the availability line (`AvailabilityShown`, not orderable and "Occupied" or "In Repair") iff it is red or orange |
| PackagesTable.InitialState | src/views/admin/dataTables/components/PackagesTable.tsx:26-34 | the local rows are the prop rows; empty draft; dialog closed |
| PackagesTable.EditDraft | src/views/admin/dataTables/components/PackagesTable.tsx:164-189 | each input sets its own draft field, every other field and the rows unchanged |
| PackagesTable.OpenModal | src/views/admin/dataTables/components/PackagesTable.tsx:108 | the button opens the dialog only |
| PackagesTable.AddPackage | src/views/admin/dataTables/components/PackagesTable.tsx:36-41 | the draft is appended as the last row, earlier rows kept, dialog closed, draft reset |
| PackagesTable.CancelModal | src/views/admin/dataTables/components/PackagesTable.tsx:198 | Cancel closes the dialog, keeping rows and draft |
| PackagesTable.FillAndAdd | src/views/admin/dataTables/components/PackagesTable.tsx:36-41 | filling all four inputs then adding appends exactly the typed row and empties the form |
| ProductTypes.InitialForm | src/views/admin/dataTables/components/ProductTypeTable.tsx:60-70 | the local rows are the prop rows; empty draft; dialog closed |
| ProductTypes.InputChange | src/views/admin/dataTables/components/ProductTypeTable.tsx:76-82 | the named field takes the value, and for images exactly the parsed URL list (one more than commas, each trimmed and comma-free); all other fields unchanged |
| ProductTypes.ImagesText | src/views/admin/dataTables/components/ProductTypeTable.tsx:319 | an empty URL list is shown as an empty field |
| ProductTypes.SetArchived | src/views/admin/dataTables/components/ProductTypeTable.tsx:296-301 | the switch sets only `archived` |
| ProductTypes.SetTransparent | src/views/admin/dataTables/components/ProductTypeTable.tsx:330-335 | the switch sets only `transparentImages` |
| ProductTypes.OpenModal | src/views/admin/dataTables/components/ProductTypeTable.tsx:183 | the button opens the dialog only |
| ProductTypes.AddProduct | src/views/admin/dataTables/components/ProductTypeTable.tsx:84-95 | the draft becomes the last row, earlier rows kept, dialog closed, draft reset |
| ProductTypes.CancelModal | src/views/admin/dataTables/components/ProductTypeTable.tsx:343 | Cancel closes the dialog and keeps the draft |
| ProductTypes.RetypeImagesStable | src/views/admin/dataTables/components/ProductTypeTable.tsx:76-82 | typing back the displayed images text leaves the form unchanged for non-empty trimmed comma-free lists |
| ProductTypes.EmptyImagesNotRestorable | src/views/admin/dataTables/components/ProductTypeTable.tsx:80 | any comma-free images text yields exactly one URL, so the empty list cannot be typed back |
| ProductTypes.InputAndSwitchCommute | src/views/admin/dataTables/components/ProductTypeTable.tsx:76-82 | a text input and a switch commute |
| Profile.InitialPage | src/views/admin/profile/index.tsx:15-30 | Adela Parkson's profile, empty passwords, email notifications on, SMS off |
| Profile.ProfileChange | src/views/admin/profile/index.tsx:33-34 | the named profile field takes the value, the others and the other forms unchanged |
| Profile.PasswordChange | src/views/admin/profile/index.tsx:36-37 | the named password field takes the value, the others unchanged |
| Profile.NotificationChange | src/views/admin/profile/index.tsx:39-43 | the named switch takes its checked state, the other unchanged |
| Profile.ProfileEditsAlgebra | src/views/admin/profile/index.tsx:33-34 | edits to different fields commute; last write wins; writing back a field's value changes nothing |
| Profile.PasswordEditsAlgebra | src/views/admin/profile/index.tsx:36-37 | the same algebra for the password form |
| Profile.NotificationToggles | src/views/admin/profile/index.tsx:39-43 | flipping a switch and back restores the page; the two switches are independent |
| Session.InitialForm | src/views/auth/signIn/index.tsx:25-28 | empty fields, password hidden, not loading |
| Session.EditUsername | src/views/auth/signIn/index.tsx:132 | the input shows the typed username; password, visibility and loading state untouched |
| Session.EditPassword | src/views/auth/signIn/index.tsx:148 | the input shows the typed password; username, visibility and loading state untouched |
| Session.TogglePassword | src/views/auth/signIn/index.tsx:158 | the eye icon flips visibility only |
| Session.InputType | src/views/auth/signIn/index.tsx:144 | "text" iff shown, "password" iff hidden |
| Session.ToggleTwice | src/views/auth/signIn/index.tsx:144-158 | toggling twice restores the form; each toggle switches the input type |
| Session.StartSignIn | src/views/auth/signIn/index.tsx:32-52 | a request is sent iff not loading and both fields are non-empty, carrying exactly the typed credentials; empty fields give the validation toast |
| Session.TypedCredentialsSent | src/views/auth/signIn/index.tsx:32-52 | typing a username and a password and clicking Sign In posts exactly those strings when both are non-empty, else only the validation toast |
| Session.StoredToken | src/views/auth/signIn/index.tsx:56 | the stored value is the token, or "undefined" when the body has none |
| Session.FinishSignIn | src/views/auth/signIn/index.tsx:54-84 | loading always ends; only a 2xx JSON answer stores the token and goes to the dashboard; failures show their toast and change nothing |
| Session.SignInStoresToken | src/views/auth/signIn/index.tsx:32-85 | a full sign-in stores exactly the returned token and keeps every other key |
| Session.DisplayName | src/components/navbar/NavbarLinksAdmin.tsx:40-46 | the stored username when non-empty, otherwise "User" |
| Session.SignInKeepsDisplayName | src/components/navbar/NavbarLinksAdmin.tsx:44 | signing in never changes the navbar name |
| Session.Logout | src/components/navbar/NavbarLinksAdmin.tsx:49-53 | removes token and username, keeps every other key, goes to the sign-in page |
| Session.LogoutIdempotent | src/components/navbar/NavbarLinksAdmin.tsx:49-53 | logging out twice is logging out once; afterwards the name is "User" |
| Session.ProfileSettings | src/components/navbar/NavbarLinksAdmin.tsx:56-58 | goes to the profile page, storage untouched |
| Routing.ProtectedRoute | src/components/ProtectedRoute/protectedRoute.tsx:4-13 | renders the children iff the token is truthy (`Authenticated`: present and non-empty), otherwise redirects to sign-in |
| Routing.AuthRedirect | src/components/ProtectedRoute/AuthRedirect.tsx:4-13 | renders the children iff the token is not truthy, otherwise redirects to the admin area |
| Routing.GuardsComplementary | src/components/ProtectedRoute/AuthRedirect.tsx:7 | exactly one of the two guards lets its children through |
| Routing.LowerChar | src/App.tsx:20-47 | ASCII lower case of one character |
| Routing.Lower | src/App.tsx:20-47 | lower-cases every character |
| Routing.LayoutOf | src/App.tsx:20-47 | the first segment selects the auth, admin or RTL layout iff it is that word, ignoring case |
| Routing.Route | src/App.tsx:18-54 | the root redirects to admin; unknown prefixes are 404; a layout renders iff its guard passes; a failing guard redirects signed-in `/auth` visits to `/admin` and signed-out `/admin` or `/rtl` visits to `/auth/sign-in` |
| Routing.Resolve | src/App.tsx:18-54 | following `<Navigate>` for any number of hops, a shown layout agrees with the sign-in state, a pending redirect points at `/admin` or `/auth/sign-in`, and the 404 page appears iff the location asked for has an unknown prefix |
| Routing.ResolveSettles | src/App.tsx:18-54 | after two redirects every location shows a layout or the 404 page, and the sign-in layout shows iff signed out |
| Routing.RootNeedsTwoHops | src/App.tsx:50 | a signed-out visit to the root is still redirecting after one hop and shows sign-in after two |
| Routing.TokenContentIgnored | src/components/ProtectedRoute/protectedRoute.tsx:5-12 | storages that agree on whether the token is truthy route and resolve every location alike: the token's contents are never inspected |
| Routing.EmptyTokenIsSignedOut | src/components/ProtectedRoute/protectedRoute.tsx:7 | an empty token counts as signed out, just like no token; any non-empty token counts as signed in |
| Routing.MissingTokenCountsAsSignedIn | src/views/auth/signIn/index.tsx:55-56 | a 2xx answer without a token stores "undefined", which the guards treat as signed in |
| LoginServer.CorsHeaders | backend/main.go:89-91 | exactly the three CORS headers with their values |
| LoginServer.Error | backend/main.go:47 | `http.Error`: message plus newline, plain-text content type and `nosniff`, earlier headers kept |
| LoginServer.Expiry | backend/main.go:73-77 | the expiry is the issue time plus fifteen minutes, truncated to whole seconds |
| LoginServer.GenerateToken | backend/main.go:72-83 | the token is the signer's output for claims naming the user and expiring at the current whole second plus 900; it fails iff signing fails |
| LoginServer.LoginHandler | backend/main.go:44-69 | 400 iff undecodable; 401 iff credentials other than admin/password; 200 iff admin/password and signing works, with a JSON object holding only the token; otherwise 500 |
| LoginServer.EnableCors | backend/main.go:86-101 | OPTIONS gets an empty 200 with the CORS headers; other methods reach the handler with the headers set |
| LoginServer.PreflightIgnoresNext | backend/main.go:94-97 | a preflight's answer does not depend on the wrapped handler |
| LoginServer.Serve | backend/main.go:29-35 | POST and OPTIONS on /login go through CORS to the handler; other methods get 405, other paths 404 |
| LoginServer.LoginAnswersCarryCors | backend/main.go:32 | every /login answer to POST or OPTIONS carries the three CORS headers |
| LoginServer.LoginSucceedsExactly | backend/main.go:44-83 | a POST logs in iff admin/password with a working signer; the only field is the token signed for "admin" expiring 900 s later |
| Flows.ClientView | src/views/auth/signIn/index.tsx:54-56 | `response.ok` iff 2xx; the token is the JSON body's `token` field when present |
| Flows.SignInOpensAdmin | src/views/auth/signIn/index.tsx:32-64 | admin/password with a working signer stores the token, goes to the dashboard and unlocks the admin layout |
| Flows.WrongCredentialsKeepSignedOut | backend/main.go:52-55 | other credentials get 401, the failure toast, and the user stays signed out |
| Flows.LogoutLocksAdmin | src/components/navbar/NavbarLinksAdmin.tsx:49-53 | after log-out every admin location leads to sign-in |

## Left out

- Rendering, styling, toasts' durations, the colour mode and the layouts' content are not modelled; only the state they show is.
- The TanStack table machinery is not modelled: sorting rows, pagination and column definitions. Only the sort arrow text is modelled.
- Seed data: the static data files, `routes.tsx` and the sub-routes inside the layouts are not part of this model. Initial table and user data are parameters.
- PackageEditor.InitialEditor: the source's package list is a module-level array whose product objects edits mutate in place, so edits survive leaving and re-entering the page; the model always starts from the seed.
- Random numbers (`Math.random`) and today's date are parameters: `PackageEditor.Stats`, the order totals and the order date.
- `getAvailabilityDate`, which formats a date thirty days ahead in the browser's locale, is left out because it depends on the clock and the locale. Only whether the line is shown is modelled.
- `parseInt` on the quantity and progress inputs is modelled as an integer; the `NaN` of an unparsable entry is not modelled.
- `Users.User.rating` is a `real`; floating point is not modelled.
- The `alert` of the Order button, the social sign-in buttons and the "Remember me" checkbox do nothing the model can observe.
- The "Add Product" button of the products table only logs to the console, so it is not modelled.
- No page of the repository mounts the product types table or the packages table. Both are modelled as components. Their row clicks hand the clicked row's own record to an `onRowClick` callback that no page supplies, so they are not modelled.
- `handleDispatchOrder` is modelled but no button calls it. The orders details dialog and the users details dialog are modelled only as their open flag and selection.
- The packages page's history and earnings panels display the selection only and are not modelled.
- The three profile buttons have no click handler, so there is nothing to model.
- `Session.StartSignIn`: the ignored click while loading models Chakra's `isLoading` button, which swallows clicks.
- Flows.RequestBody: the server is taken to decode exactly the two strings the form typed; this is a modelling assumption about the JSON exchange, not a proved property.
- The network and JSON are not modelled byte by byte: fetch, `JSON.stringify`, Go's decoder (unknown fields, trailing data) and encoder. `LoginServer.Body` is the decoded form.
- HS256 signing with the secret key is the `sign` parameter; its failure is the 500 path.
- The Go server's path cleaning (301 for non-canonical paths) and `HEAD` handling are not modelled. Paths are compared as given.
- `LoginServer.Serve`: the 405 and 404 answers carry no CORS headers because the router runs middleware only for a matched route. That is the router library's behaviour, modelled as its observable result.
- A browser blocking the response because the app's origin differs from `http://localhost:3002` shows up in the model only as `Session.Thrown`.
- `Routing.LayoutOf`: route matching ignores case only for ASCII letters; full Unicode case folding is not modelled.
- Routing: locations are given as path segments; splitting a URL into segments is not modelled.
