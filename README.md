# securticket core, modelled in Dafny

securticket sells event tickets. A Django REST backend manages:

- events,
- seat bookings,
- Stripe payment intents,
- user accounts with a login lockout,
- a password policy,
- an activity log.

A Next.js frontend keeps the JWT pair in cookies and renews the access token once when a request comes back 401.

This project models that core and proves properties of the model:

| module | file | models |
|---|---|---|
| `Wrappers` | `wrappers.dfy` | `Option` and Python/JavaScript truthiness of an optional string (`Provided`) |
| `Seqs` | `seqs.dfy` | filtering a queryset and what it keeps (membership, order, distinct keys) |
| `Permissions` | `permissions.dfy` | the principal of a request, `IsAdminUser`, `IsOwnerOrAdmin` |
| `Logs` | `logs.dfy` | the client IP rule, the activity middleware (a class holding the log table), the admin log listing |
| `PasswordPolicy` | `password_policy.dfy` | the strength check (a method with the serializer's step-by-step updates), the confirmation check, the five-row history check (a loop) |
| `Accounts` | `accounts.dfy` | the login lockout state machine as a function of the user table, and the `UserDirectory` class whose methods update the table and the history in place (login, registration, password change) |
| `Events` | `events.dfy` | categories, creation and update of event rows, `upcoming`, `by_category`, the per-action permissions |
| `Bookings` | `bookings.dfy` | statuses, seat validation, references, which bookings a user sees, the seats a table of bookings holds |
| `Payments` | `payments.dfy` | the cents conversion, the guards of `create_payment_intent`, `get_payment_status` |
| `Store` | `store.dfy` | the `Database` class: the event, booking and payment views changing the events and bookings tables and the log |
| `Session` | `session.dfy` | the cookie jar of `securticket-frontend/lib/auth.ts` and the `Browser` class, whose request dispatch follows the axios interceptors of `securticket-frontend/lib/api.ts` |

Abstract inputs are passed as parameters rather than computed. These are:

- Django's `authenticate` and the password hasher (`authenticate`, `matches`). Both are asked about a password and a stored hash only, so the lockout counters cannot affect them.
- `validate_password` (`passwordAccepted`).
- JWT minting (`mint`).
- `uuid4` (`uuidText`) and the clock (`now`, `today`).
- Stripe (`create`, `retrieve`, and the verified webhook event).
- The HTTP transport and the refresh endpoint (`transport`, `refresh`).
- `JSON.parse` and `JSON.stringify` (`parse`, `stringify`).

Decimal prices are whole cents. Times are seconds.

The central invariant is seat conservation, `Bookings.SeatsConserved`: every event's free seats equal its total minus the seats held by its bookings that are not cancelled.

- Creating a booking keeps it; so do cancelling one, creating an event, deleting one with its bookings, and recording a payment intent.
- An event update keeps it exactly when the new numbers agree (`Store.UpdateConservesIff`).
- Among the modelled writes other than an event update, it is broken in two ways. One is a booking the client creates as already `cancelled` (see Findings). The other is a `payment_intent.succeeded` webhook for a cancelled booking (`Store.ConfirmingCancelledBreaksConservation`), which re-confirms the booking without taking its seats back. The default booking `update`, `partial_update` and `destroy` of the viewset, which are not modelled, can break it as well.

Where the code behaves in a way worth noting, the model follows the code:

- **Cancel's 403 branch cannot be reached.** The `cancel` action looks the booking up through `get_queryset`, which only yields the requester's own bookings unless the requester is an admin (securticket/bookings/views.py:25-29 and securticket/bookings/views.py:56). So the 403 branch at securticket/bookings/views.py:59-60 can never fire: someone else's booking is a 404. `Store.Database.CancelBooking` states both directions of this.
- **A failed replay does not log the user out.** A 401 on the replayed request does not end the session: in securticket-frontend/lib/api.ts:46 the replay is `return api(originalRequest)` without `await`, so its rejection escapes the surrounding `try`. No logout happens: the replay's rejection is returned as is (`Session.ReplayedOnceWithNewToken`).
- **A failed renewal loses the original error.** When renewal fails, the caller receives the renewal's error, not the original 401 (securticket-frontend/lib/api.ts:53, `Session.FailedRefreshLogsOut`).
- **The renewed access token becomes a session cookie.** It is stored without an expiry (securticket-frontend/lib/api.ts:43), unlike the one-day cookie `setAuth` writes.
- **An empty access token is not authenticated.** `!!Cookies.get(...)` treats the empty string as absent, so nothing is attached and the user counts as signed out.
- **`booking_id` 0 counts as missing.** `if not booking_id` treats a JSON number 0 as absent (securticket/payments/views.py:30). The model takes the id as a number. A string id such as `"0"` is truthy in Python, so it reaches the lookup and gets 404. That is different from the model's 400. It is the form the checkout page sends: it posts the query-string value unchanged.
- **A booking needs a `total_price` in the request.** The model field has no default and is not read-only (securticket/bookings/models.py:15, securticket/bookings/serializers.py:13). So field validation refuses a POST without it with 400, before `validate` computes the real total. `Store.Database.CreateBooking` models this 400. It fires for a request that sends only `event` and `seats_booked`. The booking page sends exactly that (securticket-frontend/app/events/[id]/page.tsx:42-45).

## Model

| member | source | states |
|---|---|---|
| `Permissions.IsOwnerOrAdmin` | securticket/authentication/permissions.py:14-23 | admins are always granted; others are granted exactly when the object has an owner and it is them; an object with no owner is refused |
| `Permissions.AdminPassesObjectCheck` | securticket/authentication/permissions.py:7-17 | whoever passes `IsAdminUser` passes the object check for every object |
| `Logs.BeforeFirstComma` | securticket/logs/middleware.py:6 | the result is a prefix of the header without commas, ending just before the first comma if there is one |
| `Logs.ClientIp` | securticket/logs/middleware.py:3-9 | with a non-empty `X-Forwarded-For` the IP is its text before the first comma; otherwise it is `REMOTE_ADDR` |
| `Logs.FirstHopOfList` | securticket/logs/middleware.py:5-6 | for a proxy list `a,b`, the client IP is the first hop `a` |
| `Logs.MiddlewareEntry` | securticket/logs/middleware.py:25-30 | the middleware's row names the request's user, the action `"<METHOD> <path>"` and the client IP |
| `Logs.KeywordIsSubstring` | securticket/logs/middleware.py:24 | the keyword test is a substring test: `/api/bookings/3/cancel/` and `/api/auth/login/` are logged paths |
| `Logs.KeywordAnywhereIsLogged` | securticket/logs/middleware.py:24 | every path `a + k + b` that holds a listed keyword `k` anywhere is logged, whatever `a` and `b` are |
| `Logs.ActivityLog.Handle` | securticket/logs/middleware.py:15-32 | the response is the view's; the log gains the view's rows, then one middleware row exactly when the user is authenticated and the path holds a keyword |
| `Logs.LogQuery` | securticket/logs/views.py:12-18 | without `user_id` every row is listed; with it, exactly the rows of that user (see `LogQueryKeepsOrder` for multiplicity) |
| `Logs.LogQueryKeepsOrder` | securticket/logs/views.py:12-18 | the filtered listing is a subsequence of the table, in table order, and has as many rows as the table has rows of that user, so repeated identical rows are all listed |
| `Logs.ListLogs` | securticket/logs/views.py:7-18 | rows are listed exactly for admins (and are then `LogQuery`); anonymous requests get not-authenticated, other users permission-denied |
| `PasswordPolicy.LevelOf` | securticket/authentication/serializers.py:121-127 | weak exactly for scores up to 2, medium for 3 and 4, strong from 5 |
| `PasswordPolicy.CheckStrength` | securticket/authentication/serializers.py:84-129 | each flag is whether the password has that character class; the length is the password's; the score counts the criteria met (at most 5); the feedback is the advice for each unmet criterion in the serializer's order, so it has 5 - score entries; the level is strong exactly when there is no feedback |
| `PasswordPolicy.ScoreUnfolds` | securticket/authentication/serializers.py:97-107 | the score is one point per criterion met: length at least 8, uppercase, lowercase, digit, special |
| `PasswordPolicy.AdviceUnfolds` | securticket/authentication/serializers.py:109-119 | the feedback is the five conditional appends in the serializer's order |
| `PasswordPolicy.AdviceNamesUnmet` | securticket/authentication/serializers.py:109-119 | a criterion's advice line appears in the feedback exactly when the password does not meet that criterion |
| `PasswordPolicy.StrongExample` | securticket/authentication/serializers.py:84-129 | `Tr0ub4dor&3` meets all five criteria and is strong |
| `PasswordPolicy.CheckConfirmation` | securticket/authentication/serializers.py:14-17 | registration gets no error exactly when the two passwords agree, and otherwise an error on `password` only |
| `PasswordPolicy.IsFreshPassword` | securticket/authentication/serializers.py:55-66 | a new password is accepted exactly when it matches none of the first five history rows |
| `Accounts.LoginStep` | securticket/authentication/views.py:56-194 | a login keeps the table's usernames and every account's identity, and changes no account other than the one named |
| `Accounts.ExpireLock` | securticket/authentication/views.py:98-102 | the expiry step changes at most the named account, and only its lockout counters |
| `Accounts.AttemptStep` | securticket/authentication/views.py:107-194 | the attempt after the lock checks changes at most the named account, and only its lockout counters |
| `Accounts.MissingCredentialsChangeNothing` | securticket/authentication/views.py:60-66 | an absent or empty username or password gives 400, changes nothing and logs nothing |
| `Accounts.LockedAccountRefused` | securticket/authentication/views.py:72-96 | a locked account is refused with 403 and `locked` whatever the password, with the unlock time and the time left as minutes plus seconds under 60; nothing changes |
| `Accounts.SuccessResets` | securticket/authentication/views.py:108-132 | a correct password on an unlocked account gives 200 and the minted tokens, and resets the counter and the lock |
| `Accounts.FailureCounts` | securticket/authentication/views.py:134-180 | a wrong password raises the counter by one, counting from 0 after an expired lock; at 5 the account locks for 30 minutes with 403, below 5 it answers 401 with 1 to 4 attempts remaining |
| `Accounts.ExpiredLockRestartsCount` | securticket/authentication/views.py:98-163 | after a lock has expired, a wrong password leaves 4 attempts |
| `Accounts.UnknownUserChangesNothing` | securticket/authentication/views.py:182-194 | an unknown username gives the same 401 "Invalid credentials", changes nothing and logs one row with no user |
| `Accounts.LoginKeepsLockoutConsistent` | securticket/authentication/views.py:73-163 | if every account's counters are in range and an account is locked exactly when it has 5 failures, every login keeps it so |
| `Accounts.AttemptKeepsLockoutConsistent` | securticket/authentication/views.py:107-180 | the same invariant, for the attempt on an account the expiry step left unlocked |
| `Accounts.WrongPasswordStep` | securticket/authentication/views.py:135-180 | one wrong password on an unlocked account with k failures gives k+1 failures, answering 401 with 5-k-1 left below 5, or locking the account at 5 |
| `Accounts.FiveFailuresLock` | securticket/authentication/views.py:137-160 | five wrong passwords on a fresh account answer 4, 3, 2, 1 attempts remaining and then lock it for 30 minutes from the fifth attempt |
| `Accounts.ApplyProfileUpdate` | securticket/authentication/serializers.py:39-43 | a profile update keeps the id, role, password and lockout fields, takes the fields given and keeps the others; an empty update changes nothing |
| `Accounts.UserDirectory.Login` | securticket/authentication/views.py:53-194 | the response, the new user table and the logged rows are those of `LoginStep`; the history and the id counter are unchanged; the table stays valid |
| `Accounts.UserDirectory.Attempt` | securticket/authentication/views.py:107-194 | the in-place attempt is `AttemptStep` on the table and the log |
| `Accounts.UserDirectory.Register` | securticket/authentication/views.py:26-51 | registration succeeds exactly when the username is new, the password passes validation and the confirmation agrees; it then adds a customer account with the next id and no failures, starts its history with the hash, logs "User Registration" and returns the account with the token pair minted for it; a rejection changes nothing (table, history, next id and log) and reports the mismatch error |
| `Accounts.UserDirectory.ChangePassword` | securticket/authentication/serializers.py:45-79 | the change succeeds exactly when the old password matches, the new one passes validation and matches none of the first five history rows; it then replaces the hash, appends it to the history and logs "Password Changed"; a rejection changes nothing |
| `Accounts.SixthRowUnchecked` | securticket/authentication/serializers.py:58-64 | a password that matches only the sixth history row is accepted, because only five rows are checked |
| `Events.ParseCategory` | securticket/events/models.py:5-10 | a stored value denotes the category with that name, and nothing when no category has it |
| `Events.CategoryRoundTrip` | securticket/events/models.py:5-10 | every category's stored name denotes it again |
| `Events.NewEvent` | securticket/events/serializers.py:12-15 | a created event starts with all its seats free, belongs to its creator and takes the submitted fields |
| `Events.UpdatedEvent` | securticket/events/views.py:43-44 | an update keeps id and creator and takes the submitted seat counts as given |
| `Events.OnlyCreateResetsSeats` | securticket/events/serializers.py:12-15 | creation ignores a submitted free-seat count; an update stores it even when it disagrees with the total |
| `Events.Upcoming` | securticket/events/views.py:67-73 | `upcoming` lists exactly the events dated today or later |
| `Events.UpcomingKeepsOrder` | securticket/events/models.py:26-27 | listed in date-then-time order, `upcoming` keeps that order |
| `Events.ByCategory` | securticket/events/views.py:75-83 | without a non-empty `category` the answer is 400; otherwise exactly the events of that category, and none for an unknown name |
| `Events.PermissionFor` | securticket/events/views.py:24-29 | exactly create, update, partial_update and destroy are admin-only |
| `Events.EventPermissions` | securticket/events/views.py:24-29 | the write actions are allowed exactly to admins; other actions with a safe method are allowed to anyone; an anonymous request can only read; admins may do anything |
| `Bookings.ParseStatus` | securticket/bookings/models.py:6-10 | a stored value denotes the status with that name, and nothing when no status has it |
| `Bookings.StatusRoundTrip` | securticket/bookings/models.py:6-10 | every status's stored name denotes it again; the names are pending, confirmed and cancelled |
| `Bookings.BookingLabel` | securticket/bookings/models.py:25-26 | the label is the username, " - ", the event title, " - " and the reference, each at its position |
| `Bookings.ValidateBooking` | securticket/bookings/serializers.py:15-30 | more seats than are free is refused with the free count; otherwise zero or fewer is refused; 1 up to the free count is accepted at price times seats |
| `Bookings.SeatCheckFirst` | securticket/bookings/serializers.py:19-25 | with fewer than zero free seats, even 0 seats draws the availability error first |
| `Bookings.ReferenceFrom` | securticket/bookings/serializers.py:34 | the reference is the first 8 characters of the UUID text, upper-cased, with no lower-case letter left |
| `Bookings.VisibleTo` | securticket/bookings/views.py:25-29 | admins see every booking, anyone else exactly their own |
| `Bookings.MyBookings` | securticket/bookings/views.py:85-90 | `my_bookings` lists exactly the requester's bookings, admins included |
| `Bookings.AdminMyBookingsIsNarrower` | securticket/bookings/views.py:86-88 | an admin sees another user's booking in the list but not in `my_bookings` |
| `Bookings.UserListsKeepOrder` | securticket/bookings/models.py:22-23 | both listings keep the newest-first order of the table |
| `Bookings.FindBooking` | securticket/bookings/views.py:56 | the lookup finds a row with the given id, or there is none |
| `Bookings.CreatedStatusAsWritten` | securticket/bookings/serializers.py:10-13 | as written, a created booking takes whatever status the client sends, and `pending` only when none is sent |
| `Bookings.ClientCancelledBookingLosesSeats` | securticket/bookings/serializers.py:32-43 | a booking created as `cancelled` still takes its seats, which breaks seat conservation |
| `Payments.Truncate` | securticket/payments/views.py:51 | Python's `int()` on a quotient truncates towards zero: for a non-negative numerator the result q is the largest with q·den ≤ num; for a negative one, the smallest with num ≤ q·den |
| `Payments.TwoPlacesAreExactCents` | securticket/payments/views.py:51 | for a two-place decimal the Stripe amount is exactly the price in cents |
| `Payments.ThreePlacesTruncate` | securticket/payments/views.py:51 | a third decimal place is cut off towards zero, for positive and negative totals |
| `Payments.CheckIntentRequest` | securticket/payments/views.py:28-47 | a missing or zero id is refused first; otherwise "not found" exactly when the requester owns no booking with that id, "already confirmed" when theirs is confirmed, and otherwise their booking is used |
| `Payments.FindOwned` | securticket/payments/views.py:37 | finds a booking with that id owned by that user, or there is none |
| `Payments.PaymentStatus` | securticket/payments/views.py:162-191 | 404 exactly when the requester owns no such booking; `pending` exactly when no intent id is recorded; otherwise Stripe's status and amount for the recorded intent and the booking's own status, and a 500 exactly when Stripe returns nothing for a recorded intent |
| `Store.Denial` | securticket/events/views.py:24-29 | a refused permission answers 401 exactly to anonymous requests and 403 exactly to authenticated ones |
| `Store.NewEventConserves` | securticket/events/serializers.py:12-15 | adding an event with all seats free and no bookings keeps seat conservation |
| `Store.UpdateConservesIff` | securticket/events/views.py:43-53 | rewriting an event keeps conservation exactly when its free seats equal its total minus the seats its bookings hold |
| `Store.CascadeConserves` | securticket/bookings/models.py:13 | deleting an event together with its bookings keeps conservation for the rest |
| `Store.BookingConserves` | securticket/bookings/serializers.py:38-41 | adding a non-cancelled booking and taking its seats from its event keeps conservation |
| `Store.CancelConserves` | securticket/bookings/views.py:65-72 | cancelling a booking and returning its seats keeps conservation |
| `Store.SameHoldingConserves` | securticket/payments/views.py:62-64 | rewriting a booking without changing its event, seats or whether it is cancelled keeps conservation |
| `Store.ConfirmingCancelledBreaksConservation` | securticket/payments/views.py:117-121 | confirming a cancelled booking breaks conservation |
| `Store.WebhookTarget` | securticket/payments/views.py:115-119 | the webhook's booking is a row with the metadata id, or no row has it |
| `Store.Database.CreateEvent` | securticket/events/views.py:31-41 | non-admins get `Denial` and nothing changes; an admin gets 201 with `NewEvent` added under the next id, and the method logs "Event Created: <title>"; conservation is kept |
| `Store.Database.UpdateEvent` | securticket/events/views.py:43-53 | non-admins get `Denial`; an unknown id is 404; otherwise the row becomes `UpdatedEvent`, "Event Updated: <title>" is logged, and conservation survives exactly when the submitted seats agree with the bookings |
| `Store.Database.DestroyEvent` | securticket/events/views.py:55-65 | non-admins get `Denial`; an unknown id is 404; otherwise "Event Deleted: <title>" is logged with the old title, the event is removed and its bookings with it; conservation is kept |
| `Store.Database.CreateBooking` | securticket/bookings/views.py:32-51 | anonymous: 401; unknown event or no `total_price` sent: 400; seats refused by `ValidateBooking`: that error; a taken reference: 500; otherwise a pending booking of the requester at price times seats, with the next id and the derived reference, is appended, the event's free seats drop by the seats (staying at least 0), "Booking Created: <reference>" is logged and conservation is kept; every refusal changes nothing |
| `Store.Database.InsertBooking` | securticket/bookings/serializers.py:36-43 | the row is appended, its seats come off its event, the creation is logged, and conservation is kept |
| `Store.Database.CancelBooking` | securticket/bookings/views.py:53-83 | anonymous: 401; 404 exactly when no booking is found or a non-admin asks for someone else's; 400 "Booking already cancelled" exactly for a visible cancelled booking; otherwise the booking is cancelled, its seats return to its event and "Booking Cancelled: <reference>" is logged; conservation is kept |
| `Store.Database.ReturnSeats` | securticket/bookings/views.py:65-81 | the booking becomes cancelled, its seats return to its event and the cancellation is logged; conservation is kept |
| `Store.Database.BookThenCancel` | securticket/bookings/views.py:32-83 | a booking that is created and then cancelled by its owner leaves every event's free seats as they were |
| `Store.Database.CreatePaymentIntent` | securticket/payments/views.py:23-91 | anonymous: 401; the three guards of `CheckIntentRequest` answer 400, 404, 400; otherwise Stripe is asked for the price in cents, a failure is 500, and a success records the intent id on the booking, logs "Payment Intent Created: <reference>" and returns the client secret, reference and total; conservation is kept |
| `Store.Database.Webhook` | securticket/payments/views.py:93-160 | an unverified payload is 400 and changes nothing; a verified one is 200; a success confirms the booking and logs "Payment Successful" from `webhook`, a failure only logs "Payment Failed", anything else changes nothing; events never change; conservation is kept unless a cancelled booking is confirmed, and then it breaks |
| `Session.AuthJar` | securticket-frontend/lib/auth.ts:12-16 | `setAuth` writes the access cookie for 1 day and the refresh and user cookies for 7 days, leaving other cookies alone |
| `Session.LoggedOutJar` | securticket-frontend/lib/auth.ts:39-43 | logout removes exactly the three session cookies |
| `Session.GetUser` | securticket-frontend/lib/auth.ts:18-28 | no user without a non-empty user cookie; otherwise whatever parsing the cookie gives (nothing when parsing throws) |
| `Session.AuthenticationIgnoresUserCookie` | securticket-frontend/lib/auth.ts:30-32 | being authenticated depends only on the access cookie, never on the user cookie |
| `Session.SetAuthAuthenticates` | securticket-frontend/lib/auth.ts:12-32 | after `setAuth` with a non-empty access token the browser is authenticated |
| `Session.SetAuthStoresUser` | securticket-frontend/lib/auth.ts:12-37 | after `setAuth`, `getUser` gives back the stored user, and `isAdmin` holds exactly when the role is admin |
| `Session.LogoutSignsOut` | securticket-frontend/lib/auth.ts:39-44 | after logout the browser is neither authenticated nor admin, and has no user |
| `Session.Attach` | securticket-frontend/lib/api.ts:13-24 | the request interceptor sets `Bearer <access>` when an access token is present and otherwise leaves the request alone |
| `Session.BearerIffToken` | securticket-frontend/lib/api.ts:15-18 | a fresh request carries a bearer credential exactly when the browser is authenticated |
| `Session.SingleRefresh` | securticket-frontend/lib/api.ts:27-59 | a request makes one to three calls, the first being the request with the credential attached; at most one renewal call, second, with the stored refresh token; and more than one call only after a first-try 401 |
| `Session.RetriedRequestNotRefreshed` | securticket-frontend/lib/api.ts:32 | an already-retried request is sent once and its failure changes nothing |
| `Session.ReplayedOnceWithNewToken` | securticket-frontend/lib/api.ts:33-46 | after a first-try 401 and a successful renewal the new token is stored and the request is replayed once, marked retried, with `Bearer <new token>`; a 401 on the replay is returned as the rejection |
| `Session.FailedRefreshLogsOut` | securticket-frontend/lib/api.ts:47-54 | a failed renewal removes the session cookies, goes to /login and rejects with the renewal's error |
| `Session.OtherErrorsPassThrough` | securticket-frontend/lib/api.ts:57 | any other failure is rejected as is, after one call, with nothing changed |
| `Session.Browser.SetAuth` | securticket-frontend/lib/auth.ts:12-16 | the cookies become `AuthJar` of the old ones; the location stays |
| `Session.Browser.Logout` | securticket-frontend/lib/auth.ts:39-44 | the cookies become `LoggedOutJar` of the old ones and the location /login |
| `Session.Browser.Dispatch` | securticket-frontend/lib/api.ts:13-59 | the outcome, the calls made, the new cookies and the location are those of `RequestFlow` |
| `Session.Browser.OnError` | securticket-frontend/lib/api.ts:29-58 | the response interceptor's outcome, calls, cookies and location are those of `ErrorFlow` |

## Left out

- Rate limits (`@ratelimit` on login and on booking creation): they depend on request history and a cache, outside this model.
- User agents, log metadata dictionaries and timestamps of log rows: the model keeps user, action and IP.
- The backend `logout`, `get_user_profile` and `check_password_strength` views only wrap a log row, a serializer read or `CheckStrength`. Beyond `ApplyProfileUpdate`, `update_user_profile` is not modelled.
- The default `update`, `partial_update` and `destroy` of `BookingViewSet`, and the list and retrieve actions of both viewsets: default ModelViewSet paths outside the named operations.
- Field validation of the serializers (types, lengths, required fields, unique email): Django behaviour outside the core.
- Django's `authenticate`, `set_password`, `check_password`, `validate_password`, JWT minting and refreshing, `uuid4`, Stripe calls and webhook signature checks, `JSON.parse` and `JSON.stringify`: abstract parameters, as listed above.
- Exceptions the views turn into 500 other than a taken booking reference and a failed Stripe call, for example a non-numeric id: no exception model.
- Payments.PaymentStatus: reports Stripe's amount in cents; the view divides it by 100 as a float.
- Store.Database.Webhook: the route at securticket/payments/urls.py:6 is commented out, and securticket/payments/urls.py:8 routes to `confirm_payment_manual`, which is not defined in securticket/payments/views.py. The model treats the webhook view as callable.
- Store.Database.Webhook: Stripe metadata values are strings; the model takes the booking id as an optional number, so a non-numeric id is not modelled.
- Store.Database.CreateBooking: the model keeps the client's `payment_intent_id` as sent. Serializer fields are otherwise typed values.
- Store.Database.CreateBooking: only whether `total_price` is present is modelled. Its decimal validation (format, `max_digits=10`) is not, and neither is DRF's collection of several field errors into one 400.
- The activity middleware is modelled by itself (`Logs.ActivityLog.Handle`) and is not wired around the `Store` and `Accounts` methods.
- Accounts.UserDirectory.Login: one `now` is used where the view reads the clock several times, and lock times are whole seconds, so fractions of a second in the time left are not modelled.
- PasswordPolicy.CheckStrength: `\d` is narrowed to ASCII digits, because Python's Unicode digit class is not modelled.
- PasswordPolicy.IsFreshPassword: the `PasswordHistory` model is not part of this model. The model assumes its rows come back in creation order, so `[:5]` checks the five oldest rows. A declared ordering there would change which five rows are checked.
- Ordering of listings: the table is taken in its declared order, and the lemmas show that filtering keeps it. Sorting itself is not computed.
- Concurrency: two requests booking the last seats at once (no row locking in the source) are not modelled; each method runs alone.
- Cookie lifetimes are recorded but time does not pass for the jar, so expiry is not modelled. Cookie path and domain attributes are left out.
- The frontend pages and components (login countdown, dashboard, checkout): outside the core.

## Findings

| source | as written | input that shows it | evidently intended | confidence | as-written member | corrected member |
|---|---|---|---|---|---|---|
| securticket/bookings/serializers.py:13 | `status` is neither in `read_only_fields` nor set by `create`, so a created booking takes any status the client sends | POST `/api/bookings/` with `{"event": 1, "seats_booked": 2, "total_price": "0.00", "status": "cancelled"}`: the seats are taken but never counted again. With `"status": "confirmed"` the booking is confirmed without payment | new bookings start `pending`, the model default at securticket/bookings/models.py:16, and only payment confirms them | high; not executed | `Bookings.ClientCancelledBookingLosesSeats` | `Store.Database.CreateBooking` |
