# Gîte Ellezelles reservation site, modelled in Dafny

This project models the logic of a small booking site for a holiday cottage (a *gîte*).

- **Public visitors** can:
  - check availability on a calendar (`/disponibilite`);
  - price a stay and send a booking request by email (`/reservation`, `POST /api/reservations/request`);
  - write to the owner (`POST /api/contact-landing`).
- **The owner** signs in (`POST /api/auth/login`) and manages confirmed reservations on an admin dashboard.
- **The API** (`/api/reservations`):
  - lists reservations ordered by start day;
  - creates one only after a server-side conflict check that follows a lodging rule: a stay may start on the day another one ends.
- **The request gate** (`src/middleware.ts`) protects admin pages and the writing methods of that API. It accepts the token from the `adminToken` cookie or from an `Authorization` header. The header is read loosely, in the manner of section 2.1 of RFC 6750: the first `Bearer ` found anywhere in it is removed, case-sensitively, and a header without that text is passed on whole as the token.
- **Two client helpers** (`SimpleAuth`, `AuthService`) keep the token in `localStorage`.
- **Seeding routes:**
  - a setup route and a seed script create the admin account and three demonstration stays;
  - a delete-user route removes accounts.

Modelling choices:
- **Dates** are integer day numbers counted from 1970-01-01 (`DateRange.Day`).
- **A stay** `[start, end)` occupies the nights `start … end-1`.
- **JSON string fields** are `Option<string>`. "Present" means given and non-empty, which is JavaScript truthiness for strings.
- **The database tables** are sequences held by the `Database.Database` class. Its `Valid()` invariant is key uniqueness.
- **External operations** are parameters: the ids the database assigns, the password hash, password comparison, JWT signing and verification, the mail service's outcome, and the current time.
- **The browser** is the `Browser.Browser` class. It has `localStorage` and a cookie jar, both maps, and an `isClient` flag for server rendering.

Modules, one per source file or shared concern:
- `DateRange`: the conflict rule.
- `Records`, `Database`: rows and tables.
- `ReservationsRoute`: `/api/reservations`.
- `Calendar`: the day expansion and the selected-day filter shared by both calendars.
- `Dashboard`: the admin dashboard.
- `Availability`: `/disponibilite`.
- `BookingPage`: `/reservation`.
- `MailRoutes`: the email shape and error classification, shared by the two mail routes.
- `BookingRequest`, `ContactLanding`: the two mail routes.
- `AccessGate`: the middleware.
- `Login`.
- `SimpleAuth`, `AuthService`, `Browser`: the client token stores.
- `Carousel`.
- `SampleData`, `Setup`, `Seed`: the demonstration data and the routes that write it.
- `DeleteUser`.
- `Strings`, `Wrappers`: helpers.

## Model

| member | source | states |
|---|---|---|
| DateRange.Conflicts | src/app/api/reservations/route.ts:22-24 | a new stay that starts the day an existing one ends, or ends the day it starts, never conflicts with it |
| DateRange.ConflictsIsExclusiveOverlap | src/app/api/reservations/route.ts:18-31 | on whole days the rule is exactly exclusive overlap: newStart < existingEnd and existingStart < newEnd |
| DateRange.ConflictsSymmetric | src/app/api/reservations/route.ts:18-31 | the rule gives the same answer with the two stays swapped |
| DateRange.ConflictsIffSharedNight | src/app/api/reservations/route.ts:26-30 | two stays of at least one night conflict iff some night belongs to both |
| DateRange.TouchingNeverConflicts | src/app/api/reservations/route.ts:22-24 | stays that touch (one ends the day the other starts) never conflict, in either order |
| DateRange.IdenticalStaysConflict | src/app/api/reservations/route.ts:26-30 | a stay of at least one night conflicts with an identical stay |
| Records.IndexOfKey | src/app/api/auth/login/route.ts:21-23 | the `findUnique` lookup on any key field finds a row whose field has the value, or answers none exactly when no row has it |
| Records.IndexOfUsername | src/app/api/auth/login/route.ts:21-23 | the lookup by username finds a row with that username, or answers none exactly when no row has it |
| Records.IndexOfUserId | src/app/api/admin/delete-user/route.ts:22 | the lookup by id finds a row with that id, or answers none exactly when no row has it |
| Records.AppendKeepsConflictFree | src/app/api/reservations/route.ts:89-111 | adding a stay that conflicts with no stored stay keeps a conflict-free table conflict-free |
| Records.RemoveAtKeepsUniqueUsers | src/app/api/admin/delete-user/route.ts:21-23 | removing one user keeps ids and usernames unique |
| Database.Database.CreateReservation | src/app/api/reservations/route.ts:102-111 | the row is appended iff its id is free; the user table is untouched; keys stay unique |
| Database.Database.CreateUser | src/app/api/setup/route.ts:23-30 | the user is appended iff its id and username are both free; keys stay unique |
| Database.Database.DeleteUserAt | src/app/api/admin/delete-user/route.ts:21-23 | exactly the row at the position is removed, the others keep their order; keys stay unique |
| ReservationsRoute.Candidates | src/app/api/reservations/route.ts:14-16 | a row is a candidate iff it is stored and its id is not a non-empty excludeId |
| ReservationsRoute.AnyConflict | src/app/api/reservations/route.ts:18-31 | `some` holds iff some listed row conflicts with the new stay |
| ReservationsRoute.CheckDateConflict | src/app/api/reservations/route.ts:6-32 | true iff some stored row, other than the excluded one, conflicts with the new stay |
| ReservationsRoute.ListReservations | src/app/api/reservations/route.ts:35-39 | the GET listing keeps the row count; ListReservationsSorted and ListReservationsPermutes state that it is the stored rows ordered by `dateDebut` |
| ReservationsRoute.InsertKeepsSorted | src/app/api/reservations/route.ts:37-39 | inserting into a list ordered by start day keeps it ordered |
| ReservationsRoute.InsertAddsRow | src/app/api/reservations/route.ts:37-39 | inserting adds exactly the one row, as multisets |
| ReservationsRoute.ListReservationsSorted | src/app/api/reservations/route.ts:37-39 | the GET listing is ordered by `dateDebut` ascending |
| ReservationsRoute.ListReservationsPermutes | src/app/api/reservations/route.ts:37-39 | the GET listing is a permutation of the stored rows |
| ReservationsRoute.NewRecord | src/app/api/reservations/route.ts:102-111 | the created row carries the given id and days, the submitted `nom`, `email` and `telephone` whenever they are given, and `commentaire`, which defaults to "" when missing or empty |
| ReservationsRoute.Post | src/app/api/reservations/route.ts:58-131 | missing field gives 400; start on or after end gives 400; any conflict gives 409; an unreadable date or a taken id gives 500, and in all these cases nothing is written; otherwise exactly the new row is appended with 201, carrying the generated id and the submitted name, email, phone and days; well-formedness and pairwise conflict-freedom of the table are preserved |
| Calendar.DayRange | src/app/disponibilite/page.tsx:82-85 | every day from start through end, in order: end - start + 1 days, the k-th being start + k |
| Calendar.ReservedDays | src/app/disponibilite/page.tsx:77-89 | no contract of its own; ReservedDaysLength and ReservedDaysMembership state its length and which days it marks, and both calendar loops are proved equal to it |
| Calendar.ReservedDaysLength | src/app/disponibilite/page.tsx:78-87 | the markers number the sum over the stays of end - start + 1 |
| Calendar.ReservedDaysMembership | src/app/disponibilite/page.tsx:77-89 | a day is marked iff some stay covers it, both ends included |
| Calendar.ReservationsOnDay | src/app/disponibilite/page.tsx:106-111 | the selected-day list holds a stay iff a day is selected and start <= day <= end; the dashboard's filter at src/app/admin/dashboard/page.tsx:307-312 is the same |
| Dashboard.ClientCheckDateConflict | src/app/admin/dashboard/page.tsx:176-201 | no contract of its own; ClientMatchesServer states that it answers exactly as the server's check |
| Dashboard.ClientMatchesServer | src/app/admin/dashboard/page.tsx:176-201 | the client `checkDateConflict` with `excludeId` answers exactly as the server's on the same rows |
| Dashboard.SubmitDecision | src/app/admin/dashboard/page.tsx:203-236 | start on or after end is refused first; then a local conflict, with the edited id excluded, is refused; otherwise an edit sends an update of that id and a creation sends a create |
| Dashboard.OwnDatesNeverBlock | src/app/admin/dashboard/page.tsx:212-221 | when editing, the reservation's own row never blocks it: with no other conflict the update is sent |
| Dashboard.CreateBlockedByAnyConflict | src/app/admin/dashboard/page.tsx:212-221 | a creation is refused whenever it conflicts with any loaded row |
| Dashboard.AdminDashboard.LoadReservations | src/app/admin/dashboard/page.tsx:88-121 | a 401 logs out (token removed from storage and cookies) and keeps the list; a successful answer replaces the list; any other outcome changes nothing |
| Dashboard.AdminDashboard.GetReservedDates | src/app/admin/dashboard/page.tsx:315-328 | the nested loops yield exactly the reserved-day markers, end - start + 1 days per stay in order |
| Availability.ShownUnavailable | src/app/disponibilite/page.tsx:298-305 | "Date non disponible" is shown iff some stay covers the day |
| Availability.UnavailableIffMarked | src/app/disponibilite/page.tsx:77-111 | the selected-day panel and the calendar markers agree on every day |
| Availability.DepartureDayShownYetBookable | src/app/disponibilite/page.tsx:106-111 | for every stored stay, its departure day is shown unavailable, although no stay arriving that day conflicts with it |
| Availability.AvailabilityPage.LoadReservations | src/app/disponibilite/page.tsx:55-92 | only a successful answer replaces the rows, and the markers then equal the day expansion of those rows; otherwise both stay as they were |
| BookingPage.CalculateNights | src/app/reservation/page.tsx:42-49 | 0 when either day is missing, otherwise the absolute distance between the days |
| BookingPage.CalculateTotal | src/app/reservation/page.tsx:51-56 | the total is the cleaning fee of 40 plus a multiple of 96 |
| BookingPage.Submit | src/app/reservation/page.tsx:58-74 | nothing is sent iff a day is missing; the body carries both days, the night count and nights × 96 + 40 |
| BookingPage.NightsSymmetric | src/app/reservation/page.tsx:44-46 | the night count does not depend on the order of the two days |
| BookingPage.TotalWithoutDates | src/app/reservation/page.tsx:51-56 | with no day chosen the total is 40 |
| BookingPage.CheckInDisabled | src/app/reservation/page.tsx:171-175 | no contract of its own; EnabledPairHasNights states what a pair the pickers allow gives |
| BookingPage.CheckOutDisabled | src/app/reservation/page.tsx:206-219 | no contract of its own; EnabledPairHasNights states that a check-out it enables lies at least one night after the check-in |
| BookingPage.EnabledPairHasNights | src/app/reservation/page.tsx:171-219 | a pair both pickers enable is at least one night and is priced from its exact length |
| BookingPage.ReversedPairStillSent | src/app/reservation/page.tsx:62-74 | a check-out before the check-in is still posted, priced from the absolute distance |
| MailRoutes.IndexOfChar | src/app/api/reservations/request/route.ts:34 | the first position of a character |
| MailRoutes.IsValidEmail | src/app/api/reservations/request/route.ts:33-34 | no contract of its own; ValidEmailHasShape, ShapeIsValidEmail and EmailCheckMatchesShape state that it accepts exactly the regex's language |
| MailRoutes.ValidEmailHasShape | src/app/api/reservations/request/route.ts:34-35 | every string the check accepts splits as a@b.c with three non-empty runs without whitespace or '@' |
| MailRoutes.ShapeIsValidEmail | src/app/api/reservations/request/route.ts:34-35 | every string of that shape is accepted |
| MailRoutes.EmailCheckMatchesShape | src/app/api/reservations/request/route.ts:34-35 | the hand-written check accepts exactly what `^[^\s@]+@[^\s@]+\.[^\s@]+$` matches |
| MailRoutes.Classify | src/app/api/reservations/request/route.ts:224-257 | a thrown value that is not an `Error` is unclassified |
| MailRoutes.StatusOf | src/app/api/reservations/request/route.ts:224-265 | 429 iff rate-limited, 403 iff forbidden, 500 for a configuration error or anything else |
| MailRoutes.ApiKeyWins | src/app/api/reservations/request/route.ts:225-234 | "API key" anywhere in the message gives the configuration error, whatever else it holds |
| MailRoutes.RateLimitedIff | src/app/api/reservations/request/route.ts:236-245 | 429 iff the message has "rate limit" and no "API key" |
| MailRoutes.ForbiddenIff | src/app/api/reservations/request/route.ts:247-256 | 403 iff the message has "Forbidden" and neither earlier pattern |
| BookingRequest.Subtotal | src/app/api/reservations/request/route.ts:136 | a multiple of 96, at least 96 for one night or more |
| BookingRequest.ErrorResponse | src/app/api/reservations/request/route.ts:220-265 | a failure whose status is the one its classification gives |
| BookingRequest.Handle | src/app/api/reservations/request/route.ts:8-267 | unreadable body goes to the catch; missing field gives 400 before a bad email gives 400; a mail goes out iff fields, email and both dates are good, and it carries the reply-to, the days, nights, nights × 96 and the total; success iff the mail was sent; a send error is classified |
| BookingRequest.PageTotalIsSubtotalPlusFee | src/app/reservation/page.tsx:68-74 | the total the page posts equals the mail's subtotal plus the cleaning fee |
| BookingRequest.PageRequestAccepted | src/app/api/reservations/request/route.ts:200-219 | a well-formed request sent without error is answered with success and its mail |
| ContactLanding.PhoneLine | src/app/api/contact-landing/route.ts:62 | the phone line is empty iff no non-empty phone was given, otherwise it holds the phone |
| ContactLanding.ErrorResponse | src/app/api/contact-landing/route.ts:106-151 | a failure whose status is the one its classification gives |
| ContactLanding.Handle | src/app/api/contact-landing/route.ts:6-153 | unreadable body goes to the catch; missing name, email or message gives 400 before a bad email gives 400; a mail goes out iff both pass; success iff it was sent; a send error is classified |
| ContactLanding.PhoneOptional | src/app/api/contact-landing/route.ts:11-19 | leaving the phone out changes the answer in no way and empties the phone line |
| ContactLanding.SameClassificationAsBookingRequest | src/app/api/contact-landing/route.ts:109-151 | both routes answer a thrown value with the same status, and with the same response outside 429 and the fallback |
| AccessGate.MatcherApplies | src/middleware.ts:71-73 | no contract of its own; AdminRoutesOutsideTheGate states which paths it leaves out |
| AccessGate.IsAdminPage | src/middleware.ts:10-11 | no contract of its own; GatesDisjoint states that it never overlaps IsProtectedApi |
| AccessGate.IsProtectedApi | src/middleware.ts:14-16 | no contract of its own; GetNeverGated and GatesDisjoint state what it gates |
| AccessGate.SelectToken | src/middleware.ts:23-27 | a non-empty cookie wins; otherwise the header with its first "Bearer " removed; otherwise none |
| AccessGate.Decide | src/middleware.ts:21-68 | an ungated request proceeds, a gated one proceeds iff its token is non-empty and verifies; a failing admin page redirects; a failing API call gets 401 "Authentification requise" without a token and "Token invalide" with a bad one |
| AccessGate.Middleware | src/middleware.ts:18-69 | no contract of its own; it is Decide with the written gate, and GetNeverGated, AnonymousBookingRequestRefused and AdminRoutesOutsideTheGate state what it answers |
| AccessGate.IntendedMiddleware | src/middleware.ts:14-16 | no contract of its own; AnonymousBookingRequestPasses and IntendedAgreesElsewhere state how it differs from Middleware |
| AccessGate.GatesDisjoint | src/middleware.ts:10-16 | no path is both an admin page and a protected API path |
| AccessGate.GetNeverGated | src/middleware.ts:14-16 | a GET under /api/reservations always proceeds |
| AccessGate.BearerHeaderGivesToken | src/middleware.ts:24-27 | without a cookie, "Bearer t" gives the token t |
| AccessGate.FirstBearerRemoved | src/middleware.ts:24-26 | only the first "Bearer " is removed, wherever it stands |
| AccessGate.CookieFirst | src/middleware.ts:27 | a non-empty cookie wins over any header |
| AccessGate.AnonymousBookingRequestRefused | src/middleware.ts:14-16 | the public booking form's POST to /api/reservations/request without a token gets 401 |
| AccessGate.AnonymousBookingRequestPasses | src/middleware.ts:14-16 | with that endpoint left open, the anonymous request reaches its handler |
| AccessGate.IntendedAgreesElsewhere | src/middleware.ts:14-16 | leaving that endpoint open changes the answer for no other path |
| AccessGate.AdminRoutesOutsideTheGate | src/middleware.ts:71-73 | /api/admin/delete-user and /api/setup proceed without any token |
| Login.Summary | src/app/api/auth/login/route.ts:58-63 | the summary has the user's id, username, email and role, and no password hash |
| Login.HandleLogin | src/app/api/auth/login/route.ts:6-76 | missing credentials give 400; success iff the username exists and the password matches; on success the token signs the user's id, username and role with `exp` one day after `iat` (RFC 7519, section 4.1.4); on failure no token |
| Login.CredentialFailuresIndistinguishable | src/app/api/auth/login/route.ts:25-46 | an unknown username and a wrong password get the identical 401 answer |
| Login.TokenExpiresAfterOneDay | src/app/api/auth/login/route.ts:49-53 | every issued token has `iat` = now and `exp` - `iat` = 86400 seconds |
| SimpleAuth.GetToken | src/lib/simple-auth.ts:18-21 | the stored token on the client, none off the client or when absent |
| SimpleAuth.IsAuthenticated | src/lib/simple-auth.ts:24-27 | true iff on the client and the stored token is non-empty |
| SimpleAuth.SetToken | src/lib/simple-auth.ts:9-15 | on the client stores the token and a seven-day cookie on path "/", after which GetToken gives it; off the client nothing changes |
| SimpleAuth.Logout | src/lib/simple-auth.ts:30-37 | on the client removes the token and the cookie; afterwards there is no token and no authentication |
| SimpleAuth.GetHeaders | src/lib/simple-auth.ts:40-46 | always the JSON content type; `Authorization: Bearer <token>` iff the token is non-empty; nothing else |
| AuthService.UserJson | src/lib/auth.ts:32 | the stored user text is non-empty and starts with '{' |
| AuthService.GetToken | src/lib/auth.ts:16-19 | the stored token on the client, none off the client or when absent |
| AuthService.GetUserText | src/lib/auth.ts:22-26 | the stored user text when present and non-empty, otherwise none |
| AuthService.SetAuth | src/lib/auth.ts:29-33 | on the client stores both keys, after which both getters give them back; off the client nothing changes |
| AuthService.ClearAuth | src/lib/auth.ts:36-40 | on the client removes both keys; afterwards no token, no user, not authenticated |
| AuthService.IsAuthenticated | src/lib/auth.ts:43-45 | true iff on the client and the token key is present, an empty token included |
| AuthService.GetAuthHeaders | src/lib/auth.ts:48-51 | `Authorization: Bearer <token>` iff the token is non-empty, otherwise no header |
| AuthService.EmptyTokenSplitsTheHelpers | src/lib/auth.ts:43-45 | the two helpers disagree on authentication exactly when the stored token is "" |
| AuthService.SameAuthorizationHeader | src/lib/auth.ts:48-51 | both helpers send the same Authorization header or none |
| Carousel.NextIndex | src/components/PropertyCarousel.tsx:19-21 | the next index is in range: one more, or 0 after the last slide |
| Carousel.PrevIndex | src/components/PropertyCarousel.tsx:23-25 | the previous index is in range: one less, or the last slide before the first |
| Carousel.PrevNextInverse | src/components/PropertyCarousel.tsx:19-25 | prev after next and next after prev are the identity |
| Carousel.NextTimesIsShift | src/components/PropertyCarousel.tsx:19-21 | k presses of next move the index to (i + k) mod n |
| Carousel.FiveNextsReturn | src/components/PropertyCarousel.tsx:9-21 | five presses of next come back to the starting slide |
| Carousel.Indicators | src/components/PropertyCarousel.tsx:66-76 | one dot per slide, highlighted iff it is the current index |
| Carousel.ExactlyOneIndicator | src/components/PropertyCarousel.tsx:70-74 | exactly one dot is highlighted |
| Carousel.Carousel.constructor | src/components/PropertyCarousel.tsx:17 | the carousel starts on slide 0 |
| Carousel.Carousel.Next | src/components/PropertyCarousel.tsx:19-21 | `nextImage` moves to the next index and keeps it in [0, 5) |
| Carousel.Carousel.Prev | src/components/PropertyCarousel.tsx:23-25 | `prevImage` moves to the previous index and keeps it in [0, 5) |
| Carousel.Carousel.GoTo | src/components/PropertyCarousel.tsx:27-29 | `goToImage(k)` sets the index to exactly k, for k among the slides |
| Carousel.Carousel.CurrentImage | src/components/PropertyCarousel.tsx:35-40 | the slide on show is one of the five images |
| SampleData.SampleDays | src/app/api/setup/route.ts:38-54 | the stays' day numbers are those of 2024-12-20, 2024-12-23, 2025-01-02 and 2025-01-05 |
| SampleData.SampleRowsConflictFree | src/app/api/setup/route.ts:33-58 | whatever their ids, the sample stays are well formed and pairwise free of conflict |
| Setup.AdminRow | src/app/api/setup/route.ts:23-30 | the created account is "admin1" with role "admin" and the given hash |
| Setup.InsertRows | src/app/api/setup/route.ts:60-64 | the rows go in one by one; what was written before a failing insert stays, and the failing row's id was taken |
| Setup.SetupAdmin | src/app/api/setup/route.ts:6-82 | with "admin1" present it writes nothing and answers "Admin déjà créé"; otherwise it creates "admin1" and then the sample stays in order; a 500 keeps the stays written before it and happens only when the next stay's id was taken; with a free admin id and free, distinct sample ids it answers success and stores exactly admin1 and the three stays in order; success leaves "admin1" stored |
| Setup.SetupTwice | src/app/api/setup/route.ts:84-90 | after a successful call, a second call answers "Admin déjà créé" and changes neither table |
| Setup.SetupSkipsConflictCheck | src/app/api/setup/route.ts:60-64 | the stays go in without the booking rule: for any stored stay that conflicts with a sample stay, every table the inserts reach past that sample stay holds a conflict |
| Strings.Contains | src/app/api/reservations/request/route.ts:225 | `includes` holds iff the pattern occurs at some index |
| Strings.ReplaceFirst | src/middleware.ts:24-26 | a string that starts with the pattern gets the replacement in its place; ReplaceFirstAt and ReplaceFirstAbsent state the general case |
| Strings.ReplaceFirstAt | src/middleware.ts:24-26 | `replace` with a string pattern replaces exactly the first occurrence |
| Strings.ReplaceFirstAbsent | src/middleware.ts:24-26 | a string without the pattern comes back unchanged |
| Strings.RemoveSpaces | prisma/seed.ts:54 | no whitespace is left, and a string without whitespace is unchanged; RemoveSpacesChar and RemoveSpacesAppend state that every other character is kept, in order |
| Strings.RemoveSpacesChar | prisma/seed.ts:54 | a single whitespace character is dropped, any other character is kept |
| Strings.RemoveSpacesAppend | prisma/seed.ts:54 | removal works piece by piece: what is kept of a + b is what is kept of a followed by what is kept of b |
| Strings.RemoveSpacesJoins | prisma/seed.ts:53-55 | a first and a last name around one whitespace character are joined, as "Jean Dupont" becomes "JeanDupont" |
| Strings.ToLower | prisma/seed.ts:55 | each character is lower-cased in place, the length is kept |
| Strings.ToLowerKeepsNoSpace | prisma/seed.ts:53-55 | lower-casing introduces no whitespace |
| Seed.TimestampText | prisma/seed.ts:55 | the timestamp text is non-empty and holds no whitespace |
| Seed.SeedId | prisma/seed.ts:53-55 | no contract of its own; SeedIdNoSpace, SeedIdFirstChar and SeedIdsDistinct state what the derived ids are |
| Seed.SeedIdNoSpace | prisma/seed.ts:53-55 | a derived reservation id holds no whitespace |
| Seed.SeedIdFirstChar | prisma/seed.ts:53-55 | the id starts with the lower-cased first letter of the name |
| Seed.SeedIds | prisma/seed.ts:53-62 | the where-id and the create-id of each stay are the one derived id |
| Seed.SeedIdsNoSpace | prisma/seed.ts:22-55 | none of the three seed ids holds whitespace |
| Seed.SeedIdsDistinct | prisma/seed.ts:22-55 | the three seed ids are pairwise distinct |
| Seed.UpsertUserByName | prisma/seed.ts:10-19 | a row matching `where` is kept as it is; otherwise `create` is appended iff its id and username are free |
| Seed.AdminUpsert | prisma/seed.ts:10-19 | no contract of its own; AdminUpsertKeepsAdmin and SecondRunFails state what it does |
| Seed.IntendedAdminUpsert | prisma/seed.ts:10-19 | no contract of its own; IntendedAdminUpsertIdempotent states that a rerun keeps the account |
| Seed.AdminUpsertKeepsAdmin | prisma/seed.ts:10-19 | an existing "admin" row is never modified: the table is unchanged |
| Seed.SecondRunFails | prisma/seed.ts:10-19 | on a fresh table the first run creates "admin1" and a second run's upsert fails |
| Seed.IntendedAdminUpsertIdempotent | prisma/seed.ts:10-19 | looking up "admin1" instead, a rerun after success changes nothing |
| Seed.UpsertReservationById | prisma/seed.ts:50-64 | a stored id leaves the table as it is (`update: {}`), a new one appends the row |
| Seed.UpsertAll | prisma/seed.ts:49-65 | no contract of its own; UpsertAllStoresIds, UpsertAllNoop and SeedReservationsIdempotent state what the loop does, and UpsertReservations is proved equal to it |
| Seed.UpsertAllStoresIds | prisma/seed.ts:49-65 | the loop keeps every stored row and leaves every upserted id stored |
| Seed.UpsertAllNoop | prisma/seed.ts:49-65 | upserting rows whose ids are all stored changes nothing |
| Seed.SeedReservationsIdempotent | prisma/seed.ts:49-65 | running the reservation loop twice gives what running it once gives |
| Seed.UpsertReservations | prisma/seed.ts:49-65 | the loop leaves the reservation table as the upserts, in order, make it; users are untouched |
| Seed.RunSeed | prisma/seed.ts:6-80 | the run fails (exit code 1, nothing written) iff the admin upsert fails; otherwise the users are the upsert's result and the reservations the three upserts' |
| DeleteUser.DeleteTarget | src/app/api/admin/delete-user/route.ts:10-23 | no target iff neither id nor username is given; a non-empty id is always chosen over the username |
| DeleteUser.IdOverridesUsername | src/app/api/admin/delete-user/route.ts:22 | once an id is given the username parameter does not matter |
| DeleteUser.Locate | src/app/api/admin/delete-user/route.ts:21-23 | the row found matches the key, or none is found exactly when no row matches |
| DeleteUser.OnlyMatch | src/app/api/admin/delete-user/route.ts:21-23 | with unique keys, after removing the matching row no row matches the key |
| DeleteUser.GetUsername | src/app/api/admin/delete-user/route.ts:46 | the given non-empty username, otherwise "admin" |
| DeleteUser.DeleteByKey | src/app/api/admin/delete-user/route.ts:21-28 | removes exactly the one row the key names and answers with its username, or answers the failure without change; afterwards no row matches the key |
| DeleteUser.Delete | src/app/api/admin/delete-user/route.ts:4-40 | neither id nor username: 400 and no change; no matching row: 500 and no change; otherwise exactly the matching row is removed, the answer names its username, and no row matches the key afterwards |
| DeleteUser.Get | src/app/api/admin/delete-user/route.ts:43-66 | removes exactly the row with the given or default username ("admin"), or answers 500 unchanged when there is none |

## Left out

- The PUT and DELETE handlers of `/api/reservations/[id]` are not part of this model. `Dashboard.SubmitDecision` stops at the choice of request.
- The UI is left out: rendering, toasts, router navigation (including the redirect after a 401), dialogs, form field setters, loading flags, and the `useAuth` hook.
- The mail service is a parameter (`SendOutcome`), and the HTML templates are reduced to the fields the model keeps. A Resend answer that reports an error without throwing counts as sent.
- Signing, verification and hashing are parameters: JWT signing (`sign`), token verification (`verify`) and bcrypt (`passwordMatches`, the hashed password). HMAC is not modelled, and `iat` is the parameter `now`.
- JSON parsing is left out. Bodies arrive as datatypes whose text fields are strings or absent; other JSON value types are not modelled.
- AuthService.GetUserText: returns the stored text, because the `JSON.parse` of `getUser` is not modelled.
- AuthService.UserJson: states only that the text is non-empty and starts with '{'. It does not state that the text is valid JSON for the user, because `JSON.stringify`'s escaping is not modelled.
- Database failures other than key collisions are not modelled. This includes a failing `findMany`, which makes GET `/api/reservations` answer 500. The reservations' `statut` column is not kept either.
- The check-then-insert race between `checkDateConflict` and `create` is left out, because concurrency is not modelled.
- Dates are whole day numbers. JavaScript milliseconds, time zones, `Math.ceil` and the text parsing of `parseISO` are left out. A date text is either not given, unreadable or a day (`DateText`).
- Calendar.ReservedDays: a stay whose end precedes its start marks no day. The stored stays always run forward, because POST refuses the others.
- `\s` is read as ASCII whitespace, and `toLowerCase` as ASCII lower-casing.
- Login.HandleLogin: requires unique usernames, which the `@unique` column of the user table guarantees. The schema is not part of this model.
- Logging, `$disconnect` and the response fields that only echo data are left out: the `error` of the 500 answers, `admin` in the setup answer, `emailId`.
- Seed.RunSeed: the rejected promise that ends the process with `process.exit(1)` is the result `false`.

## Findings

| source | as written | input that shows it | evidently intended | confidence | as-written member | corrected member |
|---|---|---|---|---|---|---|
| src/middleware.ts:14-16 | every POST under /api/reservations needs a token, including the public booking form's /api/reservations/request | a visitor without the admin cookie submits the booking form: `POST /api/reservations/request` with no token gets 401 "Authentification requise" | the public booking-request endpoint answers anonymous visitors | high, not executed | AccessGate.AnonymousBookingRequestRefused | AccessGate.AnonymousBookingRequestPasses |
| prisma/seed.ts:10-19 | the admin upsert looks up username "admin" but creates "admin1" | running the seed twice on an empty database: the second run finds no "admin" and its create collides with "admin1" | look up "admin1", so that a rerun keeps the account | high, not executed | Seed.SecondRunFails | Seed.IntendedAdminUpsertIdempotent |

For the first finding, `AccessGate.IntendedMiddleware` is the gate with that endpoint left open. `AccessGate.IntendedAgreesElsewhere` shows that it answers other requests as the written gate does. For the second, `Seed.IntendedAdminUpsert` is the corrected upsert. `Seed.RunSeed` keeps the written one, so that the script's effect on the tables is the one it has.

Other behaviour the model makes explicit:
- The calendars include a stay's departure day, which the booking rule leaves free (`Availability.DepartureDayShownYetBookable`).
- The booking page posts a reversed pair of days, priced by their absolute distance (`BookingPage.ReversedPairStillSent`).
- The setup route inserts its stays without the conflict check (`Setup.SetupSkipsConflictCheck`).
- `/api/admin/delete-user` and `/api/setup` are outside the gate's matcher (`AccessGate.AdminRoutesOutsideTheGate`).
