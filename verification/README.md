# Transportation portal — a verified model of its rules

This project models the core of a Django portal for vehicle trip requests. The
model covers:

- the trip-request state machine and its append-only activity log;
- vehicles, their maintenance records and the mileage high-water mark;
- drivers and users: full names, availability and trip queries;
- the field validators and the role gates;
- the rules inside the views: the status endpoints, delete guards, driver
  (de)activation, default filter data, requested-driver resolution and edit
  permission;
- the grouped choice iterator of the forms;
- the notification emails;
- the table colouring and footer sums;
- the per-user visibility of the trip-request list.

The database is replaced by Dafny values:

- a table is a sequence of rows (`TripRow`), or the set of its ids;
- an object fetched with `objects.get` is passed in, and is `null` when the row
  does not exist;
- "now" and "today" are integer parameters;
- sending mail appends a `Message` (subject, body, recipients) to an `Outbox`.

Objects that the source updates in place are classes with `modifies` frames:

- `TripRequests.TripRequest`;
- `Vehicles.Vehicle` and `Vehicles.Maintenance`;
- `Users.Driver`;
- `Emails.EmailList`, the caller's recipient list, which `_recipients`
  extends in place;
- `Emails.Outbox`.

Each state-changing method states its whole new state. The properties the code
promises are proved as lemmas over the specification functions
(`BulkDelete`, `Runs`, `MileageAfter`, `MissingItems`, `FooterSum`, `Filter`).

Python's semantics are written out where they matter:

- `str.split(' ')` splits at every space (`Strings.Split`);
- negative sequence indices count from the end (`Emails.StatusDisplay`);
- `range` raises ValueError for step 0 and is empty for a negative step
  (`Views.Chunks`);
- `and`/`or` evaluate left to right, so reading a missing attribute of the
  anonymous user raises AttributeError (`Auth.ModeratorRequiredMixin`,
  `Filters.VisibleRequests`).

Modules, one file each:

- `Wrappers`: Option and Result, and the Python exceptions the core raises;
- `Strings`: split, join, lower-case and substring tests, decimal digits;
- `Seqs`: queryset `filter`, subsequences, flatten;
- `Validators`;
- `TripRequests`;
- `Vehicles`;
- `Users`;
- `Auth`;
- `Emails`;
- `Views`;
- `Forms`;
- `Tables`;
- `Filters`.

## Model

| member | source | states |
|---|---|---|
| `TripRequests.StatusFromCode` | transportation/models/triprequests.py:14-21 | a stored status code names a status exactly when it is 0..7, and decoding gives the status with that code |
| `TripRequests.StatusCodeRoundTrip` | transportation/models/triprequests.py:14-21 | decoding a status's code gives back the same status, so the eight codes are distinct |
| `TripRequests.ChoicesIndexedByCode` | transportation/models/triprequests.py:22-53 | position k of STATUS_CHOICES and of TYPE_CHOICES holds code k, so indexing the tuples by code is sound |
| `TripRequests.StatusLabelsDistinct` | transportation/models/triprequests.py:22-31 | the eight display labels are pairwise different |
| `TripRequests.StatusLabel` | transportation/tables.py:172 | get_status_display() is the label paired with the status's code in STATUS_CHOICES, and is never empty |
| `TripRequests.VehicleTypeDisplay` | transportation/models/triprequests.py:364-366 | vehicle_type_display is the TYPE_CHOICES label of the code and raises IndexError for a code of 10 or more |
| `TripRequests.ActivityCodesDistinct` | transportation/models/triprequests.py:513-533 | the nine activity types have distinct stored codes |
| `TripRequests.IsModifiable` | transportation/models/triprequests.py:258-260 | the numeric test `status not in 3, 4, 5` means "not denied, completed or cancelled" |
| `TripRequests.IsValid` | transportation/models/triprequests.py:329-336 | is_valid holds iff missing_requirements names none of manager, driver, vehicle and card # (the lateness tests are commented out in the source) |
| `TripRequests.CanFinalize` | transportation/models/triprequests.py:352-354 | can_finalize holds iff the status code is 7 (RETURNED), and a request it allows is still modifiable; its test of the actual times is commented out, and `TripRequest.Finalize` does not consult it |
| `TripRequests.CanReturn` | transportation/models/triprequests.py:356-358 | can_return holds for every request in every status, because its test of the actual times is commented out; `TripRequest.ReturnVehicle` does not consult it |
| `TripRequests.IsMissingRequirements` | transportation/models/triprequests.py:360-362 | is_missing_requirements holds iff the request is not valid or missing_requirements names the key-tag colour |
| `TripRequests.IsDepartureEstimateLate` | transportation/models/triprequests.py:338-343 | late iff the request is pending and its departure estimate is before now |
| `TripRequests.IsReturnEstimateLate` | transportation/models/triprequests.py:345-350 | late iff the request is pending and its return estimate is before now |
| `TripRequests.MissingItemsExact` | transportation/models/triprequests.py:360-401 | each item is reported iff it is absent (actual mileage only for approved or returned trips); nothing is reported iff is_missing_requirements is false and no mileage is owed |
| `TripRequests.CompleteRequestIsValid` | transportation/models/triprequests.py:329-362 | a request missing nothing is valid; a valid request with a key colour misses nothing |
| `TripRequests.LateOnlyWhenPending` | transportation/models/triprequests.py:338-350 | a late request is still modifiable and shows the label "Pending"; once late, it stays late as now advances |
| `TripRequests.MissingTextIsJoin` | transportation/models/triprequests.py:368-401 | the comma-guarded `+=` steps build exactly the absent items joined with ", " |
| `TripRequests.TripRequest.MissingRequirements` | transportation/models/triprequests.py:368-401 | missing_requirements, built step by step, is "Missing requirements: " followed by the absent items joined with ", " |
| `TripRequests.TripRequest.constructor` | transportation/models/triprequests.py:72-77 | a new request is unsaved, has no activity and starts PENDING |
| `TripRequests.TripRequest.Save` | transportation/models/triprequests.py:409-430 | saving a new non-pending request raises ValidationError and stores nothing; otherwise exactly one activity is appended, CREATED (actor falling back to the requestor) or EDITED, and no column changes |
| `TripRequests.TripRequest.Transition` | transportation/models/triprequests.py:439-506 | the shared shape of the transitions: only the status changes; with commit a stored request gains EDITED (no user) then the typed row; an unsaved one is refused |
| `TripRequests.TripRequest.AssignModerator` | transportation/models/triprequests.py:432-437 | the manager is set to the user in every case; the request is saved only with commit and a user, and otherwise ValidationError is raised |
| `TripRequests.TripRequest.Approve` | transportation/models/triprequests.py:439-452 | without a vehicle or driver it raises and nothing changes; otherwise APPROVED from any status, logged as APPROVED |
| `TripRequests.TripRequest.Deny` | transportation/models/triprequests.py:454-464 | always DENIED, whatever the prior status or assignments, logged as DENIED |
| `TripRequests.TripRequest.ReturnVehicle` | transportation/models/triprequests.py:466-479 | needs a vehicle and a driver; then RETURNED, logged as FINISHED |
| `TripRequests.TripRequest.Finalize` | transportation/models/triprequests.py:481-494 | needs a vehicle and a driver; then COMPLETED, logged as FINISHED |
| `TripRequests.TripRequest.Cancel` | transportation/models/triprequests.py:496-506 | always CANCELLED, logged as CANCELLED |
| `Validators.ValidateTripRequestStatus` | transportation/validators.py:8-18 | passes iff the argument is an int equal to the request's status code; otherwise ValidationError |
| `Validators.ValidatePast` | transportation/validators.py:21-37 | as written: passes iff the value is a datetime whose day is not after today (plain dates are refused) |
| `Validators.ValidateFuture` | transportation/validators.py:40-56 | as written: passes iff the value is a datetime whose day is not before today |
| `Validators.DateTimeAcceptance` | transportation/validators.py:21-56 | a datetime passes both validators iff it falls on today, and always passes at least one |
| `Validators.PastDateRefused` | transportation/validators.py:21-28 | a plain date in the past is refused by validate_past |
| `Validators.ValidatePastCorrected` | transportation/validators.py:21-37 | with the type test the message describes: any date or datetime not after today passes |
| `Validators.ValidateFutureCorrected` | transportation/validators.py:40-56 | any date or datetime not before today passes |
| `Validators.CorrectedExtendsWritten` | transportation/validators.py:22-24 | the corrected validators agree with the written ones on datetimes and also judge plain dates by their day |
| `Vehicles.VehicleActivityCodesDistinct` | transportation/models/vehicles.py:168-182 | the six vehicle activity types have distinct codes |
| `Vehicles.FullName` | transportation/models/vehicles.py:130-132 | fullname is the year's digits (which parse back to the year), a space, the make, a space, the model, each segment at its position whatever spaces the make holds |
| `Vehicles.Label` | transportation/models/vehicles.py:134-135 | `__str__` starts with "#" and ends with the full name, four characters plus the number's digits longer |
| `Vehicles.FullNameParts` | transportation/models/vehicles.py:130-132 | with space-free make and model, the full name splits back into the year's digits, the make and the model, and the year parses back |
| `Vehicles.LabelShape` | transportation/models/vehicles.py:134-135 | `__str__` is "#", the number's digits (which parse back to it), " - ", then the full name |
| `Vehicles.HighWater` | transportation/models/vehicles.py:270-272 | the mileage after one maintenance save is the larger of the current mileage and the reading |
| `Vehicles.MileageAfterIsMaximum` | transportation/models/vehicles.py:256-272 | after saving records in turn, the vehicle's mileage is the maximum of its start and all readings |
| `Vehicles.MaintenanceRows` | transportation/models/vehicles.py:256-272 | a maintenance save logs CREATED/EDITED_MAINTENANCE with its user, plus the vehicle's EDITED row exactly when the reading raised the mileage |
| `Vehicles.Vehicle.constructor` | transportation/models/vehicles.py:60-64 | a new vehicle is unsaved, has no activity and has type TYPE_UNKNOWN |
| `Vehicles.Vehicle.Save` | transportation/models/vehicles.py:137-148 | stores the vehicle and appends exactly one activity, CREATED or EDITED, with the given user; no column changes |
| `Vehicles.Maintenance.constructor` | transportation/models/vehicles.py:233-250 | a new maintenance record is unsaved and points at its vehicle |
| `Vehicles.Maintenance.Save` | transportation/models/vehicles.py:256-272 | logs on the parent vehicle and raises its mileage to the high-water mark, changing nothing else of the vehicle |
| `Users.UserFullName` | transportation/models/users.py:26-28 | User.full_name is the first name, one space, the last name |
| `Users.DriverStatusCodesDistinct` | transportation/models/users.py:49-58 | the four driver statuses have distinct codes |
| `Users.SetThenGet` | transportation/models/users.py:134-139 | a value the setter accepts (exactly one space) reads back unchanged |
| `Users.GetThenSet` | transportation/models/users.py:130-139 | space-free names survive get-then-set; a name with a space makes the setter ignore the value |
| `Users.Driver.constructor` | transportation/models/users.py:64-68 | a new driver is ACTIVE |
| `Users.Driver.FullName` | transportation/models/users.py:130-132 | full_name is the first name, one space, then the last name, each recoverable at its position |
| `Users.Driver.SetFullName` | transportation/models/users.py:134-139 | assigns both names only when the value splits into exactly two parts, and then full_name equals the value; otherwise nothing changes |
| `Users.AssignedTrips` | transportation/models/users.py:163-168 | get_assigned_trips holds only, and all, the trips whose driver is this driver, restricted to departures at or after now when future_only |
| `Users.IsAvailable` | transportation/models/users.py:144-147 | a driver with no future assigned trip is available |
| `Users.HasFutureTrips` | transportation/models/users.py:149-151 | has_future_trips is false only when no trip of the driver departs at or after now |
| `Users.PendingTrips` | transportation/models/users.py:153-156 | get_pending_trips holds only pending trips of this driver, all from the table |
| `Users.CompletedTrips` | transportation/models/users.py:158-161 | get_completed_trips holds only completed trips of this driver, all from the table |
| `Users.AvailableIffNoContainedTrip` | transportation/models/users.py:144-147 | is_available holds iff no future trip of the driver lies wholly inside [start, end] |
| `Users.HasFutureTripsIff` | transportation/models/users.py:149-151 | has_future_trips holds iff some trip of the driver departs at or after now |
| `Users.NoFutureTripsMeansAvailable` | transportation/models/users.py:144-151 | a driver with no future trip is available for every window |
| `Users.StatusTripsExact` | transportation/models/users.py:153-168 | the pending and completed lists hold exactly the driver's trips in that status |
| `Users.OverlapStillAvailable` | transportation/models/users.py:144-147 | an example illustrating `AvailableIffNoContainedTrip`: a trip that only overlaps the window does not make the driver unavailable |
| `Auth.DriverRequiredMixin` | transportation/auth/mixins.py:7-11 | admits iff authenticated and a driver; never raises |
| `Auth.ModeratorRequiredMixin` | transportation/auth/mixins.py:14-19 | as written: admits iff authenticated moderator or superuser, and raises AttributeError exactly for the anonymous user |
| `Auth.ModeratorRequiredMixinCorrected` | transportation/auth/mixins.py:14-19 | the same gate testing authentication first: never raises |
| `Auth.SuperuserRequiredMixin` | transportation/auth/mixins.py:22-26 | admits iff authenticated and superuser |
| `Auth.DriverRequired` | transportation/auth/mixins.py:29-41 | driver_required admits exactly whom the driver mixin or the moderator gate admits, and never raises |
| `Auth.ModeratorRequired` | transportation/auth/mixins.py:44-56 | moderator_required admits exactly whom the moderator gate in its intended order admits, and agrees with the written mixin wherever that one does not raise |
| `Auth.SuperuserRequired` | transportation/auth/mixins.py:59-71 | superuser_required admits exactly whom the superuser mixin admits, and only users moderator_required admits |
| `Auth.AnonymousNeverAdmitted` | transportation/auth/mixins.py:7-71 | no gate and no decorator test admits the anonymous user |
| `Auth.DecoratorsNested` | transportation/auth/mixins.py:29-71 | superuser_required implies moderator_required, which implies driver_required |
| `Auth.MixinsAgainstDecorators` | transportation/auth/mixins.py:7-71 | on accounts the moderator and superuser mixins match their decorators; the driver mixin refuses exactly the non-driver moderators and superusers that driver_required admits |
| `Auth.AnonymousModeratorViewRaises` | transportation/auth/mixins.py:14-19 | an anonymous visitor to a moderator view gets AttributeError, where the login redirect is intended |
| `Auth.CorrectedAgreesOnAccounts` | transportation/auth/mixins.py:14-19 | the corrected gate decides every account as the written one does |
| `Emails.NewEmail` | transportation/emails.py:15-22 | manager_notify holds iff notification was asked for and both manager texts are present |
| `Emails.CreatedEmail` | transportation/emails.py:64-72 | raises AttributeError without a requestor; otherwise notifies the manager |
| `Emails.CanceledEmail` | transportation/emails.py:75-83 | raises AttributeError without a requestor; otherwise notifies the manager |
| `Emails.ApprovedEmail` | transportation/emails.py:86-91 | raises AttributeError without a requestor; otherwise does not notify the manager |
| `Emails.DeniedEmail` | transportation/emails.py:94-99 | raises AttributeError without a requestor; otherwise does not notify the manager |
| `Emails.StatusDisplay` | transportation/emails.py:119-120 | the label at index k, Python-style: -8..7 succeed and anything else raises IndexError |
| `Emails.StatusDisplayWraps` | transportation/emails.py:119-120 | a negative index names the label eight places further on |
| `Emails.StatusDisplayOfStatus` | transportation/emails.py:119-120 | a status's code displays as its label, so distinct statuses display differently |
| `Emails.StatusEmail` | transportation/emails.py:102-117 | raises ValidationError iff the request's status differs from new_status; succeeds iff also the old label exists and there is a requestor; otherwise IndexError exactly when the old status is outside -8..7, and AttributeError when only the requestor is missing; never notifies the manager |
| `Emails.ManagerMessage` | transportation/emails.py:33-45 | as written: a missing manager text raises AttributeError; otherwise one message to the request's contact address only |
| `Emails.ManagerMessageCorrected` | transportation/emails.py:33-45 | a missing manager text raises ValidationError, as the code constructs it |
| `Emails.ManagerMessageWithoutText` | transportation/emails.py:34-39 | for an email without manager texts the written version raises AttributeError, the corrected one ValidationError |
| `Emails.ManagerMessageWhenNotified` | transportation/emails.py:20-45 | whenever send() reaches send_manager both versions send the same message |
| `Emails.Recipients` | transportation/emails.py:28-31 | returns the caller's own list extended in place with the contact address, or a fresh one-element list |
| `Emails.SendManager` | transportation/emails.py:33-45 | appends the manager message or fails without sending anything |
| `Emails.SendShape` | transportation/emails.py:47-61 | send hands over one or two messages: the manager's first when notified, then always the requestor's, addressed to the caller's list followed by the contact address |
| `Emails.NotifiedEmailSendsBoth` | transportation/emails.py:20-61 | an email that notifies its manager always has both texts, so the manager copy is never swallowed |
| `Emails.Send` | transportation/emails.py:55-61 | the outbox gains exactly SentMessages, and the caller's list grows by the contact address |
| `Views.ChunksFrom` | transportation/views.py:456-459 | the slices from position i rebuild lst[i:], number ceil((len - i) / n), and are full except possibly the last |
| `Views.Chunks` | transportation/views.py:456-459 | a zero size raises ValueError and a negative size yields nothing |
| `Views.ChunksPartition` | transportation/views.py:456-459 | for a positive size the chunks rebuild the list, all but the last hold n items, and there are ceil(len / n) of them |
| `Views.ApproveRequest` | transportation/views.py:317-344 | "already approved" changes nothing; missing vehicle or driver is answered with an error; otherwise APPROVED, logged with two rows, and the approval email sent (AttributeError escapes without a requestor) |
| `Views.PendingRequest` | transportation/views.py:347-370 | "already pending" changes nothing; otherwise PENDING with one EDITED row by the moderator, and the status email sent |
| `Views.DenyRequest` | transportation/views.py:373-393 | "already denied" changes nothing; otherwise DENIED, logged with two rows, and the denial email sent |
| `Views.Answer` | transportation/views.py:396-438 | an exception raised inside a status endpoint's `try` is answered with an error response iff one of the view's `except` clauses names its class, and escapes otherwise |
| `Views.FinalizeMissingEscapes` | transportation/views.py:396-438 | a missing request's DoesNotExist escapes finalize_request, whose clause names Driver.DoesNotExist, while return_request_vehicle answers it |
| `Views.FinalizeClausesCorrected` | transportation/views.py:418-438 | with TripRequest.DoesNotExist in its first clause, finalize_request answers a missing request and handles every other exception as written |
| `Views.FinishingViewsLetValidationErrorEscape` | transportation/views.py:396-438 | neither view catches the ValidationError that return_vehicle and finalize raise without a vehicle or driver, unlike approve_request |
| `Views.FinishRequest` | transportation/views.py:396-438 | no "already ..." guard; a missing request or a missing vehicle or driver goes to the view's clauses with nothing changed; otherwise only the status changes, two FINISHED-typed rows are logged, and the status email from the old status to the new one is sent (AttributeError escapes without a requestor) |
| `Views.ReturnRequestVehicle` | transportation/views.py:396-414 | a missing request is answered with an error; a missing vehicle or driver raises ValidationError with nothing changed; otherwise RETURNED from any status with the status email |
| `Views.FinalizeRequest` | transportation/views.py:418-438 | as written: a missing request raises DoesNotExist and a missing vehicle or driver raises ValidationError, both with nothing changed; otherwise COMPLETED from any status with the status email |
| `Views.FinalizeRequestCorrected` | transportation/views.py:418-438 | a missing request is answered with an error, as return_request_vehicle does; every other case as written |
| `Views.DeleteOne` | transportation/views.py:56-70 | as written: a missing row is answered with an error, a row the guard refuses raises, a row a trip request uses raises ProtectedError (every TripRequest key is PROTECT), and otherwise exactly that id goes |
| `Views.DeleteOneCorrected` | transportation/views.py:249-264 | deletes iff the row exists and no trip request refers to it directly (cascades are not modelled; see Left out) |
| `Views.DeleteGuardInverted` | transportation/views.py:56-70 | an unused organisation is refused as "in use", and a used one passes the guard only to raise ProtectedError |
| `Views.DeleteOnlyVehicles` | transportation/views.py:56-264 | delete_org, delete_department, delete_budget and delete_driver never delete anything; delete_vehicle behaves as the corrected view |
| `Views.DeleteGuardsCompared` | transportation/views.py:56-264 | for vehicles the written guard is the intended one; for every other kind it is its negation |
| `Views.BulkDeleteOutcome` | transportation/views.py:75-145 | the bulk delete succeeds iff every selected row passes the guard and is unused, and then removes exactly the selected rows in order; otherwise it fails with InUse or ProtectedError |
| `Views.BulkDeleteNeverDeletes` | transportation/views.py:75-145 | with the inverted guard the bulk views leave the table as it was, and succeed only when no stored row is selected |
| `Views.DeleteMany` | transportation/views.py:75-145 | the deleting loop leaves the rows and outcome that BulkDelete specifies |
| `Views.DeactivateDriver` | transportation/views.py:164-177 | sets INACTIVE and nothing else, or answers a missing driver with an error |
| `Views.ReactivateDriver` | transportation/views.py:180-193 | sets ACTIVE and nothing else, or answers a missing driver with an error |
| `Views.DriverFilterData` | transportation/views.py:893-904 | no or empty query data becomes status=1; other data is kept unchanged |
| `Views.VehicleFilterData` | transportation/views.py:1013-1026 | no or empty query data becomes status=1 and sort=-num; other data is kept |
| `Views.FilterDataIdempotent` | transportation/views.py:893-1026 | the defaults are never empty, so applying them twice is applying them once |
| `Views.NameMatchesFullName` | transportation/views.py:1245-1254 | the first-name and last-name tests are subsumed: a driver matches iff "first last" contains the text, ignoring case |
| `Views.FirstMatch` | transportation/views.py:1245-1254 | `.first()` finds the earliest matching driver, and None only when none matches |
| `Views.ResolveDriver` | transportation/views.py:1244-1268 | no requested driver keeps the driver; a matched driver is a stored one |
| `Views.ResolveWithoutMatch` | transportation/views.py:1259-1268 | with no match, a text with a space creates a driver and one without leaves the request driverless |
| `Views.ResolveNewFullName` | transportation/views.py:1259-1266 | an unmatched "First Last" creates exactly that driver |
| `Views.ResolvePrefersExisting` | transportation/views.py:1256-1257 | a matching stored driver always wins over creating one |
| `Views.FormValid` | transportation/views.py:1241-1273 | the requestor becomes the user, the driver is resolved (a created driver is fresh and ACTIVE), the request is saved with one CREATED row and the "created" email sent; a non-pending request raises and is not stored |
| `Views.EditPermission` | transportation/views.py:1336-1359 | opening and submitting the edit form follow one rule: moderators and staff always, others only while the request is pending |
| `Views.MayOpenEditForm` | transportation/views.py:1337-1347 | the GET rule admits exactly whom the POST rule admits |
| `Views.MaySubmitEditForm` | transportation/views.py:1349-1359 | moderators and staff may always submit; anyone else exactly while the request is in the one status a new request may be saved with |
| `Forms.RunsShape` | transportation/forms.py:43-44 | groupby yields no empty group, has groups iff there are rows, and its last group has the last row's key |
| `Forms.RunsKeyed` | transportation/forms.py:43-44 | every row of a group has the group's key |
| `Forms.RunsMaximal` | transportation/forms.py:43-44 | adjacent groups have different keys, so groups are maximal runs |
| `Forms.RunsFlatten` | transportation/forms.py:43-44 | concatenating the groups reproduces the queryset rows in their original order |
| `Forms.GroupingIsByRun` | transportation/forms.py:43-44 | an example illustrating `RunsMaximal`: grouping is by consecutive run, not global, so rows A, B, A make three groups |
| `Forms.GroupRuns` | transportation/forms.py:43-44 | the groupby loop builds exactly Runs of the queryset |
| `Forms.GroupedChoices` | transportation/forms.py:36-44 | the iterator yields ("", empty_label) first iff there is an empty label, then one group per run with its rows' choices |
| `Forms.InitGroupedField` | transportation/forms.py:48-54 | a string becomes an attribute getter, a callable is kept, and anything else raises TypeError |
| `Forms.GroupedFieldsAgree` | transportation/forms.py:59-65 | the multiple-choice field accepts, refuses and groups exactly as the single-choice one |
| `Forms.FormInitialStatusSavable` | transportation/forms.py:168-169 | the form's initial status is the one status a new request may be saved with, and is offered as (1, "Pending") |
| `Tables.StatusColor` | transportation/tables.py:164-171 | green iff approved or completed, red iff denied or cancelled, blue iff pending, black for none, other and returned |
| `Tables.RenderStatus` | transportation/tables.py:164-172 | the paragraph opens with the colour's name and ends with the status label |
| `Tables.ColorNamesDistinct` | transportation/tables.py:164-172 | the four colour names differ |
| `Tables.RenderStatusInjective` | transportation/tables.py:164-172 | different statuses render differently, even when they share a colour |
| `Tables.FooterSumAppend` | transportation/tables.py:38-45 | the sum over two row ranges is the sum of their sums |
| `Tables.FooterSumIsSum` | transportation/tables.py:38-45 | Python's left-to-right sum equals the sum taken from the front |
| `Tables.FooterSumBounds` | transportation/tables.py:38-45 | a column of non-negative amounts sums to at least each amount, and to at least 0 |
| `Tables.ColumnFooter` | transportation/tables.py:38-45 | the footer of an empty table is 0 |
| `Tables.ColumnFooterAppend` | transportation/tables.py:38-45 | the footer of a table split in two is the sum of the two footers |
| `Tables.ColumnFooterSingle` | transportation/tables.py:38-45 | the footer of one row is that row's value |
| `Tables.MaintenanceFooters` | transportation/tables.py:190-191 | the date footer reads "Total:" and an empty table's cost footer is 0 |
| `Tables.MaintenanceFootersAppend` | transportation/tables.py:190-191 | the cost footer adds up over a split table |
| `Filters.OwnRequests` | transportation/filters.py:67 | `requestor=user` keeps only, and all, the base rows the user filed |
| `Filters.VisibleRequests` | transportation/filters.py:62-67 | staff and moderators see the base queryset unchanged; others see only, and all, their own requests; the anonymous user raises AttributeError |
| `Filters.VisibleIsSubsequence` | transportation/filters.py:62-67 | for every account the visible requests are base rows in their original order |
| `Filters.VisibleIdempotent` | transportation/filters.py:62-67 | restricting the visible requests again changes nothing |
| `Filters.OthersRequestsHidden` | transportation/filters.py:67 | a request filed by someone else is hidden from a plain user |
| `Filters.StatusFilterChoices` | transportation/filters.py:35-42 | the status filter offers every status but None and Other, each once, with the model's own labels |

## Left out

- The ORM is left out: querysets are sequences, with no SQL, transactions,
  cascades or uniqueness. The one `on_delete` rule kept is PROTECT on the
  foreign keys of TripRequest, which the delete views run into. Objects that do not exist are `null`,
  and `objects.get` is not modelled beyond that.
- Time is left out: `timezone.now()` and `date()` become integer parameters,
  and date formatting (`daterange`, `render_submitted`, `strftime`) is not
  modelled.
- Email subjects and bodies are left out. Only which email and which part
  each text is recorded, and the transport (`send_mail`) becomes
  appending to an outbox. The sender address (`from_email`) is not modelled.
- Decimal money fields are left out, except the maintenance cost footer, which
  uses integers of cents.
- Case folding is left out for everything but ASCII letters: `icontains`
  lower-cases only A–Z.
- Logging and the text of the JSON responses are left out. Responses are
  reduced to success, the "already ..." error, a handled error, or an
  escaping exception.
- The `update_request`, `cancel_trip_request` and `assign_request_moderator`
  views are left out. They depend on the form and URL keyword plumbing.
- The `delete_drivers` bulk view is left out. It refers to
  `models.Drivers`, and `transportation/models/__init__.py`, which would say
  whether that name exists, is not part of this model.
- `delete_trip_request` and `delete_vehicle_maintenance` are left out. They
  have no guard to state.
- The report, label and dropdown views (`print_labels`, `run_*_report`,
  `load_*`) are left out: they are framework I/O. Only their `chunks` helper
  is modelled.
- From `UpdateTripRequestView`, the "approve" POST branch and the status
  email of `form_valid` are left out. Only the permission rule is modelled.
- `Vehicle.get_assigned_trips` and `get_assigned_drivers` are left out. They
  are plain ORM filters, and the first filters on `driver=self`.
- Widget attributes, crispy-forms helpers and OAuth are left out: they are
  library configuration.
- `Views.DeleteMany`: the rows are the ids of the table in iteration order,
  and an object deleted before the loop stops stays deleted (no transaction).
- `Views.DeleteOneCorrected`: cascades are not modelled. Deleting an
  organisation also deletes its departments, budgets and vehicles (CASCADE),
  and a trip request PROTECTs each of those, so the corrected delete_org still
  raises ProtectedError when a trip request uses any of them, even if no trip
  request names the organisation itself.
- `Views.FormValid`: a failing `Driver.objects.create` is not modelled, and the
  new driver's id is a parameter.
- `Views.ApproveRequest`, `Views.PendingRequest`, `Views.DenyRequest`: the
  request is assumed stored, because it was fetched with `objects.get`.
- `Vehicles.Maintenance.Save`: requires the parent vehicle to be stored; the
  error Django raises when a record's vehicle is unsaved is not modelled, since
  every view fetches the vehicle from the database first.
- `Users.Driver.SetFullName`: `Driver.save` is plain Django and writes no
  activity, so no save is modelled.
- `Tables.ColumnFooter`: the accessor is a total function. An accessor that
  raises is not modelled.

## Findings

| source | as written | input that shows it | evidently intended | confidence | as-written member | corrected member |
|---|---|---|---|---|---|---|
| transportation/views.py:56-70 | `delete_org`, `delete_department`, `delete_budget`, `delete_driver` and the bulk variants raise when `not TripRequest.objects.filter(...)`, i.e. when the row is NOT used | an organisation that no trip request uses: deleting it raises "in use"; one that a request uses passes the guard and then raises ProtectedError, so these views can never delete anything | refuse exactly the rows in use, as `delete_vehicle` does and as the message says (for an organisation, a row whose departments, budgets or vehicles are in use still raises ProtectedError through the cascade) | high, not executed | `Views.DeleteGuardInverted` | `Views.DeleteOneCorrected` |
| transportation/validators.py:21-56 | the type test `not is_date or not is_datetime` rejects everything that is not a datetime | `validate_past(date(2020, 1, 1))` raises "is not a date or datetime" | accept a date or a datetime, as the message says | high, not executed | `Validators.PastDateRefused` | `Validators.ValidatePastCorrected` |
| transportation/auth/mixins.py:14-19 | `proper_permissions` reads `is_moderator` before `is_authenticated` is tested | an anonymous visitor to any ModeratorRequiredMixin view: AnonymousUser has no `is_moderator`, so AttributeError | redirect to login, as the other two mixins do | high, not executed | `Auth.AnonymousModeratorViewRaises` | `Auth.ModeratorRequiredMixinCorrected` |
| transportation/emails.py:33-39 | the error message formats `self.__className__`, an attribute no object has | `send_manager()` on an email built without manager texts raises AttributeError, not ValidationError (so `send()` would not swallow it) | raise the ValidationError being constructed | medium, not executed; `send()` only calls it when both texts exist | `Emails.ManagerMessageWithoutText` | `Emails.ManagerMessageCorrected` |
| transportation/views.py:418-438 | `finalize_request` catches `models.Driver.DoesNotExist`, but its `try` only looks up a TripRequest | `finalize_request` with the pk of no trip request: TripRequest.DoesNotExist is not a Driver.DoesNotExist and escapes as a server error | catch `models.TripRequest.DoesNotExist` and answer with an error, as `return_request_vehicle` does | high, not executed | `Views.FinalizeMissingEscapes` | `Views.FinalizeRequestCorrected` |
