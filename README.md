# ReAP — a verified model of the reservation and preorder core

ReAP ("Reserve and Preorder") is a restaurant system made of four services:

- The **Owner** service keeps tables, reservations, payments and the check-in token.
- The **Waiter** service builds the waiter's dashboard from calls to the Owner and the Cook services.
- The **Cook** service keeps the kitchen's orders and preorders.
- The **Customer** service has the browser cart from which a preorder is sent.

This project models the business logic of these services in Dafny and proves what that logic promises:

- **Reservations** (`Reservations`). The Owner's `ResService` is a class over two stores. Creating a reservation picks the smallest free table that fits the party. The reservation is confirmed exactly when such a table exists. Cancelling is free while 30 minutes or more remain, and otherwise costs 10.00 for a single booking or 20.00 for a group. A no-show costs 10.00 per guest, computed in 32-bit arithmetic as the source does. Check-in, completion, walk-ins, the timeout warning and deletion each move the reservation and its table together, and each error leaves both stores untouched.
- **Tables** (`Tables`). `TableService` covers status changes, creation, update, deletion, cleaning and release. Assigning a table refuses it when it is reserved or occupied for a different reservation.
- **Queries** (`TableQueries`, `ReservationQueries`, `OrderQueries`, `Payments`). Each repository query is a function over the stored rows. Its contract says the result is sound (only matching rows), complete (every matching row), free of repeats (as many entries as matching rows) and ordered as the query's `ORDER BY` says.
- **The check-in token** (`CheckinToken`). A token is Base64 of `reservationId:guestId:expiry:signature`; HMAC and Base64 are parameters with stated laws. A freshly generated token validates, before its expiry, to its own reservation and guest. A guest id of 0 or none comes back as none. Every way validation can fail gives its own message.
- **Payments** (`Payments`). A payment is accepted only for an existing reservation that is not already paid. Cash, the mock card and the mock PayPal flows record a COMPLETED payment. A declined or interrupted payment is reported with its FAILED record and, since the transaction rolls back, stores nothing. A refund is allowed only on a COMPLETED payment, and a refunded reservation counts as unpaid again. The statistics are consistent with each other.
- **The scheduler** (`Scheduler`). Its no-show and timeout checks loop over the candidates the queries return. Each check changes exactly those reservations, and releases their tables where the source does.
- **The reservation entity** (`Entities`). The JPA class `Reservation` has its defaults, lifecycle hooks and group-member list, together with the back-reference each group member holds.
- **The kitchen** (`Kitchen`). The Cook's `OrderService` runs the status life cycle PENDING, IN_KITCHEN, READY, SERVED, with CANCELLED beside it. It also turns a preorder request into an order whose total is the sum of its lines. Each status is visible in the cook's and the waiter's lists as the queries decide.
- **The waiter** (`Waiter`). The dashboard maps the Owner's tables and the Cook's orders to the waiter's own statuses (Reserviert, Belegt, Abservieren, Leer; Küche, Bereit, Serviert). It backfills each free table's reservation from the earliest reservation that claims it. It resolves an order's table from the table number or the reservation it belongs to. Finishing a table completes its first checked-in reservation and frees the table. A payment also completes the reservation it pays for.
- **Registration** (`Registration`). The customer endpoint checks name, email, password and phone in the source's order, with the source's messages. It uses the source's regular expressions, written out as predicates over characters.
- **The cart** (`Cart`). The Customer page's cart is a class over a sequence of lines. Raising, lowering and removing a line keep the lines distinct and positive. Lowering undoes raising. The submitted preorder carries the cart's total.

The stores are maps from id to row with a next-id counter (`Stores`). Times are seconds, and money is integer cents.

## Model

Source cells are paths inside the repository, with line numbers.

| member | source | states |
|---|---|---|
| Common.OrderBy | Reserve_And_Preorder_Owner_G2/src/main/java/at/htlle/reap/repository/TableRepository.java:22-25 | the ids of a set listed once each, every id present, in ascending order of the key (ties by id) |
| Common.LeastExists | Reserve_And_Preorder_Owner_G2/src/main/java/at/htlle/reap/repository/TableRepository.java:25 | every non-empty set has an element that comes first under `ORDER BY key` |
| Common.Select | Reserve_And_Preorder_Cook_G2/src/main/java/at/htlle/reserveAndPreorderCookG2/repository/OrderRepository.java:36-37 | a filtered query returns exactly the stored rows that pass the filter, one per matching row, ordered by the key |
| Common.Pick | Reserve_And_Preorder_Owner_G2/src/main/java/at/htlle/reap/repository/TableRepository.java:22-27 | looking up a list of ids gives the rows in the same order |
| Common.WrapInt32 | Reserve_And_Preorder_Owner_G2/src/main/java/at/htlle/reap/service/ResService.java:298 | Java `int` arithmetic: the result is in the 32-bit range and equals the exact value when that fits |
| Common.TruncDiv | Reserve_And_Preorder_Owner_G2/src/main/java/at/htlle/reap/service/ResService.java:187 | `Duration.toMinutes` division rounds toward zero for negative durations as well |
| Common.DigitChar | Reserve_And_Preorder_Owner_G2/src/main/java/at/htlle/reap/service/QRCodeService.java:46-48 | one decimal digit character per value 0..9 |
| Common.NatToString | Reserve_And_Preorder_Owner_G2/src/main/java/at/htlle/reap/service/QRCodeService.java:46-48 | a natural number prints as a non-empty run of digits |
| Common.IntToString | Reserve_And_Preorder_Owner_G2/src/main/java/at/htlle/reap/service/QRCodeService.java:46-48 | a `long` prints as non-empty text of digits and a minus sign |
| Common.ParseLong | Reserve_And_Preorder_Owner_G2/src/main/java/at/htlle/reap/service/QRCodeService.java:78-80 | `Long.parseLong` yields only values in the 64-bit range, and only from non-empty text |
| Common.DigitsValueOfNatToString | Reserve_And_Preorder_Owner_G2/src/main/java/at/htlle/reap/service/QRCodeService.java:46-48 | reading printed digits gives back the number |
| Common.ParseLongOfIntToString | Reserve_And_Preorder_Owner_G2/src/main/java/at/htlle/reap/service/QRCodeService.java:78-80 | parsing a printed `long` gives it back, so ids written into a token are read back unchanged |
| Common.SplitAll | Reserve_And_Preorder_Owner_G2/src/main/java/at/htlle/reap/service/QRCodeService.java:73 | splitting always yields at least one field |
| Common.DropTrailingEmpty | Reserve_And_Preorder_Owner_G2/src/main/java/at/htlle/reap/service/QRCodeService.java:73 | `String.split` drops trailing empty fields and never adds any |
| Common.SplitAllWithoutSeparator | Reserve_And_Preorder_Owner_G2/src/main/java/at/htlle/reap/service/QRCodeService.java:73 | text without the separator is a single field |
| Common.SplitAllAfterField | Reserve_And_Preorder_Owner_G2/src/main/java/at/htlle/reap/service/QRCodeService.java:73 | a field without the separator followed by the separator splits off as the first field |
| Common.SplitFourFields | Reserve_And_Preorder_Owner_G2/src/main/java/at/htlle/reap/service/QRCodeService.java:73-76 | four separator-free fields joined by ':' with a non-empty last field split back into exactly those four |
| Domain.ParseReservationStatus | Reserve_And_Preorder_Owner_G2/src/main/java/at/htlle/reap/enums/ReservationStatus.java:3-11 | `valueOf` accepts only a constant's exact name and returns that constant |
| Domain.ParseReservationStatusName | Reserve_And_Preorder_Owner_G2/src/main/java/at/htlle/reap/enums/ReservationStatus.java:3-11 | every status name parses back to its status |
| Domain.ToUpper | Reserve_And_Preorder_Owner_G2/src/main/java/at/htlle/reap/service/ResService.java:354 | `toUpperCase` on ASCII: same length, lower-case letters raised, everything else kept |
| Domain.ToUpperOfUpper | Reserve_And_Preorder_Owner_G2/src/main/java/at/htlle/reap/service/ResService.java:354 | text without lower-case letters, such as every status name, is unchanged by upper-casing |
| Domain.NewTable | Reserve_And_Preorder_Owner_G2/src/main/java/at/htlle/reap/model/Table.java:25-39 | a new table is AVAILABLE and bound to no reservation, with the given restaurant, number and capacity |
| Domain.NewGroupMember | Reserve_And_Preorder_Owner_G2/src/main/java/at/htlle/reap/model/GroupMember.java:29-39 | a new member has the given name and email, no token, and has not checked in |
| Domain.BlankReservation | Reserve_And_Preorder_Owner_G2/src/main/java/at/htlle/reap/model/Reservation.java:33-65 | the field defaults: 120 minutes, PENDING, not a group, no fee, no members, no table, no check-in, no token |
| Domain.NewPayment | Reserve_And_Preorder_Owner_G2/src/main/java/at/htlle/reap/model/Payment.java:30-58 | a new payment is PENDING with no refund, no payment time and no transaction, for the given reservation, amount and method |
| Stores.TableRepository.constructor | Reserve_And_Preorder_Owner_G2/src/main/java/at/htlle/reap/repository/TableRepository.java:13-28 | an empty table store whose first id is 1 |
| Stores.ReservationRepository.constructor | Reserve_And_Preorder_Owner_G2/src/main/java/at/htlle/reap/repository/ReservationRepository.java:15-57 | an empty reservation store whose first id is 1 |
| Stores.PaymentRepository.constructor | Reserve_And_Preorder_Owner_G2/src/main/java/at/htlle/reap/repository/PaymentRepository.java:13-19 | an empty payment store whose first id is 1 |
| TableQueries.FindByRestaurantId | Reserve_And_Preorder_Owner_G2/src/main/java/at/htlle/reap/repository/TableRepository.java:16 | exactly the tables of the restaurant; each matching stored row appears exactly once |
| TableQueries.FindByRestaurantIdAndStatus | Reserve_And_Preorder_Owner_G2/src/main/java/at/htlle/reap/repository/TableRepository.java:19 | exactly the tables of the restaurant in that status; each matching stored row appears exactly once |
| TableQueries.FindAvailableTablesWithCapacity | Reserve_And_Preorder_Owner_G2/src/main/java/at/htlle/reap/repository/TableRepository.java:22-27 | exactly the AVAILABLE tables of the restaurant seating at least the party, smallest capacity first; each matching stored row appears exactly once |
| TableQueries.FirstAvailableIsSmallest | Reserve_And_Preorder_Owner_G2/src/main/java/at/htlle/reap/repository/TableRepository.java:25 | the first table listed seats no more than any other qualifying table |
| TableQueries.NoAvailableTable | Reserve_And_Preorder_Owner_G2/src/main/java/at/htlle/reap/repository/TableRepository.java:22-27 | the list is empty exactly when no table qualifies |
| ReservationQueries.FindByCustomerId | Reserve_And_Preorder_Owner_G2/src/main/java/at/htlle/reap/repository/ReservationRepository.java:17 | exactly the customer's reservations; each matching stored row appears exactly once |
| ReservationQueries.FindByRestaurantId | Reserve_And_Preorder_Owner_G2/src/main/java/at/htlle/reap/repository/ReservationRepository.java:20 | exactly the restaurant's reservations; each matching stored row appears exactly once |
| ReservationQueries.FindByStatus | Reserve_And_Preorder_Owner_G2/src/main/java/at/htlle/reap/repository/ReservationRepository.java:23 | exactly the reservations in that status; each matching stored row appears exactly once |
| ReservationQueries.FindByRestaurantIdAndStatus | Reserve_And_Preorder_Owner_G2/src/main/java/at/htlle/reap/repository/ReservationRepository.java:26 | exactly the restaurant's reservations in that status; each matching stored row appears exactly once |
| ReservationQueries.FindByDateRange | Reserve_And_Preorder_Owner_G2/src/main/java/at/htlle/reap/repository/ReservationRepository.java:29-31 | exactly the reservations whose time lies in the range, both ends included; each matching stored row appears exactly once |
| ReservationQueries.FindPotentialNoShows | Reserve_And_Preorder_Owner_G2/src/main/java/at/htlle/reap/repository/ReservationRepository.java:34-37 | exactly the CONFIRMED reservations not yet checked in whose time is before the cutoff; each matching stored row appears exactly once |
| ReservationQueries.FindTimeoutCandidates | Reserve_And_Preorder_Owner_G2/src/main/java/at/htlle/reap/repository/ReservationRepository.java:40-42 | exactly the CHECKED_IN reservations checked in before the cutoff; each matching stored row appears exactly once |
| ReservationQueries.FindActiveReservations | Reserve_And_Preorder_Owner_G2/src/main/java/at/htlle/reap/repository/ReservationRepository.java:45-46 | exactly the CHECKED_IN reservations; each matching stored row appears exactly once |
| ReservationQueries.IsTableAvailable | Reserve_And_Preorder_Owner_G2/src/main/java/at/htlle/reap/repository/ReservationRepository.java:49-56 | a table is unavailable exactly when some live reservation on it overlaps the interval |
| ReservationQueries.TouchingIntervalBlocks | Reserve_And_Preorder_Owner_G2/src/main/java/at/htlle/reap/repository/ReservationRepository.java:49-56 | the overlap test uses inclusive bounds: an interval that only touches a reservation's start or end still blocks the table |
| CheckinToken.Rejected | Reserve_And_Preorder_Owner_G2/src/main/java/at/htlle/reap/service/QRCodeService.java:75 | a rejection is invalid, names no reservation or guest, and carries its message |
| CheckinToken.GenerateCheckinToken | Reserve_And_Preorder_Owner_G2/src/main/java/at/htlle/reap/service/QRCodeService.java:38-62 | the token decodes to `reservationId:guest:expiry` followed by ':' and that payload's signature, with guest 0 when none is given and expiry 7 days ahead |
| CheckinToken.ValidateToken | Reserve_And_Preorder_Owner_G2/src/main/java/at/htlle/reap/service/QRCodeService.java:67-103 | a rejected token names no reservation or guest; an accepted one says "Valid" and names its reservation |
| CheckinToken.GenerateCheckinUrl | Reserve_And_Preorder_Owner_G2/src/main/java/at/htlle/reap/service/QRCodeService.java:147-150 | the URL is the base URL followed by `/checkin?token=` and the generated token |
| CheckinToken.NoColonInNumber | Reserve_And_Preorder_Owner_G2/src/main/java/at/htlle/reap/service/QRCodeService.java:46-48 | a printed number holds no ':' that could shift the token's fields |
| CheckinToken.NoColonInSignature | Reserve_And_Preorder_Owner_G2/src/main/java/at/htlle/reap/service/QRCodeService.java:51 | a Base64 signature is non-empty and holds no ':' |
| CheckinToken.ZeroText | Reserve_And_Preorder_Owner_G2/src/main/java/at/htlle/reap/service/QRCodeService.java:79 | a printed guest id equals "0" exactly when the id is 0 |
| CheckinToken.GeneratedTokenFields | Reserve_And_Preorder_Owner_G2/src/main/java/at/htlle/reap/service/QRCodeService.java:46-54 | a generated token splits into exactly its four fields |
| CheckinToken.ValidateGeneratedToken | Reserve_And_Preorder_Owner_G2/src/main/java/at/htlle/reap/service/QRCodeService.java:38-103 | the round trip: before expiry a generated token is valid for its reservation, its guest comes back (0 comes back as none) |
| CheckinToken.GeneratedTokenExpires | Reserve_And_Preorder_Owner_G2/src/main/java/at/htlle/reap/service/QRCodeService.java:84-87 | after its expiry a generated token is refused with "Token expired" |
| CheckinToken.ValidMeansSigned | Reserve_And_Preorder_Owner_G2/src/main/java/at/htlle/reap/service/QRCodeService.java:73-98 | an accepted token decodes to four fields whose last is the signature of the first three, and it has not expired |
| CheckinToken.FailureReasons | Reserve_And_Preorder_Owner_G2/src/main/java/at/htlle/reap/service/QRCodeService.java:73-95 | which message a decodable token gets: wrong field count, expired, or bad signature |
| CheckinToken.UndecodableToken | Reserve_And_Preorder_Owner_G2/src/main/java/at/htlle/reap/service/QRCodeService.java:100-102 | a token that is not Base64 is refused with the decoder's message |
| CheckinToken.CheckinUrlCarriesToken | Reserve_And_Preorder_Owner_G2/src/main/java/at/htlle/reap/service/QRCodeService.java:147-150 | the token read back from a generated URL is valid before its expiry, for the same reservation, and gives back the guest (0 or none comes back as none) |
| Tables.Assigned | Reserve_And_Preorder_Owner_G2/src/main/java/at/htlle/reap/service/TableService.java:132-135 | an assigned table is RESERVED for the reservation, with everything else kept |
| Tables.AssignIdempotent | Reserve_And_Preorder_Owner_G2/src/main/java/at/htlle/reap/service/TableService.java:117-135 | assigning the same reservation twice is the same as once, and the second call is never refused |
| Tables.FreeTableAssignable | Reserve_And_Preorder_Owner_G2/src/main/java/at/htlle/reap/service/TableService.java:120-130 | an AVAILABLE or CLEANING table, or one bound to nobody, is never refused |
| Tables.TableService.constructor | Reserve_And_Preorder_Owner_G2/src/main/java/at/htlle/reap/service/TableService.java:17-19 | the service works on the given store |
| Tables.TableService.GetAllTables | Reserve_And_Preorder_Owner_G2/src/main/java/at/htlle/reap/service/TableService.java:26-28 | `findAll`: exactly the stored tables, each once |
| Tables.TableService.GetTableById | Reserve_And_Preorder_Owner_G2/src/main/java/at/htlle/reap/service/TableService.java:33-36 | the stored table, or "table not found" exactly when the id is absent |
| Tables.TableService.UpdateTableStatus | Reserve_And_Preorder_Owner_G2/src/main/java/at/htlle/reap/service/TableService.java:62-66 | only the status of that table changes; a missing table is an error that changes nothing |
| Tables.TableService.CreateTable | Reserve_And_Preorder_Owner_G2/src/main/java/at/htlle/reap/service/TableService.java:71-73 | `save`: a posted id that is stored has its row replaced in place; any other table is stored under a fresh id; nothing else changes |
| Tables.TableService.UpdateTable | Reserve_And_Preorder_Owner_G2/src/main/java/at/htlle/reap/service/TableService.java:78-83 | without an id the call fails and nothing changes; a stored id has its row replaced; an id not stored is inserted under a fresh id, as `save` does |
| Tables.TableService.DeleteTable | Reserve_And_Preorder_Owner_G2/src/main/java/at/htlle/reap/service/TableService.java:88-94 | the row is gone, and the answer says whether it existed |
| Tables.TableService.MarkForCleaning | Reserve_And_Preorder_Owner_G2/src/main/java/at/htlle/reap/service/TableService.java:99-101 | the table becomes CLEANING and keeps its reservation binding |
| Tables.TableService.MarkAsAvailable | Reserve_And_Preorder_Owner_G2/src/main/java/at/htlle/reap/service/TableService.java:106-111 | the table becomes AVAILABLE and bound to no reservation |
| Tables.TableService.AssignReservation | Reserve_And_Preorder_Owner_G2/src/main/java/at/htlle/reap/service/TableService.java:117-136 | a table RESERVED or OCCUPIED for another reservation is refused unchanged; otherwise it becomes RESERVED for this one |
| Reservations.PlacementConfirmedIffTableFits | Reserve_And_Preorder_Owner_G2/src/main/java/at/htlle/reap/service/ResService.java:71-105 | a new reservation is CONFIRMED exactly when some table qualifies; otherwise it stays PENDING and no table changes |
| Reservations.PlacementTakesSmallestTable | Reserve_And_Preorder_Owner_G2/src/main/java/at/htlle/reap/service/ResService.java:75-91 | a confirmed reservation gets a qualifying table of least capacity, which becomes RESERVED; no other table changes |
| Reservations.PlacementKeepsRequest | Reserve_And_Preorder_Owner_G2/src/main/java/at/htlle/reap/service/ResService.java:71-105 | the saved reservation keeps what was posted and carries its check-in token |
| Reservations.PlaceReservation | Reserve_And_Preorder_Owner_G2/src/main/java/at/htlle/reap/service/ResService.java:71-105 | the new reservation gets its id and token and ends PENDING or CONFIRMED; a CONFIRMED one has a table; a PENDING one leaves the tables as they were |
| Reservations.GroupMembersFor | Reserve_And_Preorder_Owner_G2/src/main/java/at/htlle/reap/service/ResService.java:133-144 | one member per email, in order, each with that email and a token for its own guest number |
| Reservations.GroupMembersForFields | Reserve_And_Preorder_Owner_G2/src/main/java/at/htlle/reap/service/ResService.java:133-144 | member k has the k-th email as name and address, is not checked in, and carries the token for guest number first + k |
| Reservations.GroupMemberTokenNamesGuest | Reserve_And_Preorder_Owner_G2/src/main/java/at/htlle/reap/service/ResService.java:133-144 | member k's token validates to the reservation and guest k+1 |
| Reservations.CalculateCancellationFee | Reserve_And_Preorder_Owner_G2/src/main/java/at/htlle/reap/service/ResService.java:186-194 | the fee is zero exactly when at least 30 minutes remain; otherwise 20.00 for a group and 10.00 for a single booking |
| Reservations.NoShowFee | Reserve_And_Preorder_Owner_G2/src/main/java/at/htlle/reap/service/ResService.java:298 | 10.00 per guest when the product fits an `int`, and a whole number of euros in every case |
| Reservations.MarkedNoShow | Reserve_And_Preorder_Owner_G2/src/main/java/at/htlle/reap/service/ResService.java:296-299 | a no-show gets status NO_SHOW and the per-guest fee, and keeps its id, table and party size |
| Reservations.ReleaseTable | Reserve_And_Preorder_Owner_G2/src/main/java/at/htlle/reap/service/ResService.java:167-174 | only the reservation's table changes: it gets the new status and loses its binding |
| Reservations.ReleaseKeepsKeyed | Reserve_And_Preorder_Owner_G2/src/main/java/at/htlle/reap/service/ResService.java:167-174 | releasing keeps every table stored under its own id |
| Reservations.TerminalStatuses | Reserve_And_Preorder_Owner_G2/src/main/java/at/htlle/reap/service/ResService.java:158-267 | COMPLETED and CANCELLED allow neither cancel, check-in nor completion; what may check in may also be cancelled but not completed |
| Reservations.ResService.constructor | Reserve_And_Preorder_Owner_G2/src/main/java/at/htlle/reap/service/ResService.java:30-36 | the service works on the given stores and token codec |
| Reservations.ResService.GetAllReservations | Reserve_And_Preorder_Owner_G2/src/main/java/at/htlle/reap/service/ResService.java:41-43 | `findAll`: exactly the stored reservations, each once |
| Reservations.ResService.GetReservationById | Reserve_And_Preorder_Owner_G2/src/main/java/at/htlle/reap/service/ResService.java:48-51 | the stored reservation, or "not found" exactly when the id is absent |
| Reservations.ResService.ReserveFirstFittingTable | Reserve_And_Preorder_Owner_G2/src/main/java/at/htlle/reap/service/ResService.java:75-91 | the table step of creation, as the placement says |
| Reservations.ResService.CreateReservation | Reserve_And_Preorder_Owner_G2/src/main/java/at/htlle/reap/service/ResService.java:71-105 | the new reservation is the placement under a fresh id with its token; only it and its table change |
| Reservations.ResService.UpdateReservationTable | Reserve_And_Preorder_Owner_G2/src/main/java/at/htlle/reap/service/ResService.java:111-122 | the reservation gets the table and a PENDING one becomes CONFIRMED; the table store is not touched; a missing reservation is an error that changes nothing |
| Reservations.ResService.CreateGroupReservation | Reserve_And_Preorder_Owner_G2/src/main/java/at/htlle/reap/service/ResService.java:128-148 | as creation, flagged as a group, with one member per email and a token for each |
| Reservations.ResService.GroupMembersOf | Reserve_And_Preorder_Owner_G2/src/main/java/at/htlle/reap/service/ResService.java:133-144 | the member loop builds exactly the members the function describes |
| Reservations.ResService.ReleaseTableOf | Reserve_And_Preorder_Owner_G2/src/main/java/at/htlle/reap/service/ResService.java:167-174 | the table store after release is exactly the released map |
| Reservations.ResService.CancelReservation | Reserve_And_Preorder_Owner_G2/src/main/java/at/htlle/reap/service/ResService.java:155-180 | a cancellable reservation becomes CANCELLED with the fee and its table becomes AVAILABLE; anything else is refused and changes nothing |
| Reservations.ResService.CheckIn | Reserve_And_Preorder_Owner_G2/src/main/java/at/htlle/reap/service/ResService.java:201-227 | a PENDING or CONFIRMED reservation with a stored table becomes CHECKED_IN at `now` and its table OCCUPIED; every other case is its own error and changes nothing |
| Reservations.ResService.CreateWalkIn | Reserve_And_Preorder_Owner_G2/src/main/java/at/htlle/reap/service/ResService.java:234-257 | a stored table gets a new CHECKED_IN reservation for the party and becomes OCCUPIED by it; a missing table is an error |
| Reservations.ResService.CompleteReservation | Reserve_And_Preorder_Owner_G2/src/main/java/at/htlle/reap/service/ResService.java:263-285 | a CHECKED_IN or TIMEOUT_WARNING reservation becomes COMPLETED and its table CLEANING; anything else is refused and changes nothing |
| Reservations.ResService.MarkAsNoShow | Reserve_And_Preorder_Owner_G2/src/main/java/at/htlle/reap/service/ResService.java:292-313 | the reservation becomes NO_SHOW with the per-guest fee, and its table becomes AVAILABLE |
| Reservations.ResService.MarkTimeoutWarning | Reserve_And_Preorder_Owner_G2/src/main/java/at/htlle/reap/service/ResService.java:335-340 | only that reservation's status changes, to TIMEOUT_WARNING |
| Reservations.ResService.DeleteReservation | Reserve_And_Preorder_Owner_G2/src/main/java/at/htlle/reap/service/ResService.java:365-380 | the reservation is removed and its table freed; a missing one is an error |
| Reservations.ResService.FindPotentialNoShowsAt | Reserve_And_Preorder_Owner_G2/src/main/java/at/htlle/reap/service/ResService.java:318-321 | exactly the CONFIRMED reservations not checked in whose time lies more than 15 minutes before `now`; each matching stored row appears exactly once |
| Reservations.ResService.FindTimeoutCandidatesAt | Reserve_And_Preorder_Owner_G2/src/main/java/at/htlle/reap/service/ResService.java:326-329 | exactly the reservations checked in more than two hours ago; each matching stored row appears exactly once |
| Reservations.ResService.GetActiveReservations | Reserve_And_Preorder_Owner_G2/src/main/java/at/htlle/reap/service/ResService.java:345-347 | exactly the CHECKED_IN reservations; each matching stored row appears exactly once |
| Reservations.ResService.GetReservationsByStatus | Reserve_And_Preorder_Owner_G2/src/main/java/at/htlle/reap/service/ResService.java:352-359 | the name is matched case-insensitively; an unknown name is an error, a known one gives exactly the reservations in that status; each matching stored row appears exactly once |
| Entities.RemoveFirstEffect | Reserve_And_Preorder_Owner_G2/src/main/java/at/htlle/reap/model/Reservation.java:228-231 | `List.remove` drops one occurrence when present and changes nothing otherwise |
| Entities.RemoveFirstShifts | Reserve_And_Preorder_Owner_G2/src/main/java/at/htlle/reap/model/Reservation.java:228-231 | removal takes out the first occurrence and closes the gap |
| Entities.RemoveAfterAdd | Reserve_And_Preorder_Owner_G2/src/main/java/at/htlle/reap/model/Reservation.java:223-231 | removing a member just added to a list that did not hold it restores the list |
| Entities.GroupMemberEntity.constructor | Reserve_And_Preorder_Owner_G2/src/main/java/at/htlle/reap/model/GroupMember.java:36-39 | a member with name and email, no reservation, no token, not checked in |
| Entities.ReservationEntity.constructor | Reserve_And_Preorder_Owner_G2/src/main/java/at/htlle/reap/model/Reservation.java:33-70 | a reservation with every field at its declared default |
| Entities.ReservationEntity.WithDetails | Reserve_And_Preorder_Owner_G2/src/main/java/at/htlle/reap/model/Reservation.java:72-79 | the defaults plus customer, restaurant, time, party size and both timestamps |
| Entities.ReservationEntity.AddGroupMember | Reserve_And_Preorder_Owner_G2/src/main/java/at/htlle/reap/model/Reservation.java:223-226 | the member is appended and points back to this reservation; every other field of both is unchanged |
| Entities.ReservationEntity.RemoveGroupMember | Reserve_And_Preorder_Owner_G2/src/main/java/at/htlle/reap/model/Reservation.java:228-231 | the member's first occurrence is removed and its back-reference cleared; every other field of the reservation is unchanged |
| Entities.ReservationEntity.OnCreate | Reserve_And_Preorder_Owner_G2/src/main/java/at/htlle/reap/model/Reservation.java:83-86 | both timestamps become `now`; every other field is unchanged |
| Entities.ReservationEntity.OnUpdate | Reserve_And_Preorder_Owner_G2/src/main/java/at/htlle/reap/model/Reservation.java:89-91 | only the update timestamp changes |
| Scheduler.ApplyEachEffect | Reserve_And_Preorder_Owner_G2/src/main/java/at/htlle/reap/service/ScheduledTaskService.java:30-44 | applying a change to each listed reservation changes exactly those, and no id is added or lost |
| Scheduler.ApplyEach | Reserve_And_Preorder_Owner_G2/src/main/java/at/htlle/reap/service/ScheduledTaskService.java:30-44 | no id is added or lost, and a reservation that is not listed is unchanged |
| Scheduler.ListedRowStored | Reserve_And_Preorder_Owner_G2/src/main/java/at/htlle/reap/service/ScheduledTaskService.java:30-44 | each candidate is still stored, with its table, when the loop reaches it |
| Scheduler.ApplyEachClears | Reserve_And_Preorder_Owner_G2/src/main/java/at/htlle/reap/service/ScheduledTaskService.java:26-74 | after the pass no stored reservation still meets the selection, given the change removes it |
| Scheduler.ReleaseAllEffect | Reserve_And_Preorder_Owner_G2/src/main/java/at/htlle/reap/service/ScheduledTaskService.java:30-44 | exactly the tables of the listed reservations are released |
| Scheduler.ReleaseAll | Reserve_And_Preorder_Owner_G2/src/main/java/at/htlle/reap/service/ScheduledTaskService.java:30-44 | no table is added or lost, and a table no listed reservation names is unchanged |
| Scheduler.Warned | Reserve_And_Preorder_Owner_G2/src/main/java/at/htlle/reap/service/ScheduledTaskService.java:52-74 | a warned reservation is TIMEOUT_WARNING and keeps its id and table |
| Scheduler.MarkedNoShowIdempotent | Reserve_And_Preorder_Owner_G2/src/main/java/at/htlle/reap/service/ScheduledTaskService.java:26-45 | marking a no-show twice is the same as once |
| Scheduler.ScheduledTaskService.constructor | Reserve_And_Preorder_Owner_G2/src/main/java/at/htlle/reap/service/ScheduledTaskService.java:15-18 | the scheduler works on the given reservation service |
| Scheduler.ScheduledTaskService.MarkEachAsNoShow | Reserve_And_Preorder_Owner_G2/src/main/java/at/htlle/reap/service/ScheduledTaskService.java:30-44 | the loop marks each candidate and frees its table, as the fold functions say |
| Scheduler.ScheduledTaskService.CheckNoShows | Reserve_And_Preorder_Owner_G2/src/main/java/at/htlle/reap/service/ScheduledTaskService.java:26-45 | exactly the reservations overdue by 15 minutes at `now` become NO_SHOW with the fee; the others are unchanged |
| Scheduler.ScheduledTaskService.WarnEach | Reserve_And_Preorder_Owner_G2/src/main/java/at/htlle/reap/service/ScheduledTaskService.java:55-73 | the loop warns each candidate, as the fold says |
| Scheduler.ScheduledTaskService.CheckTimeouts | Reserve_And_Preorder_Owner_G2/src/main/java/at/htlle/reap/service/ScheduledTaskService.java:52-74 | exactly the reservations checked in over two hours before `now` become TIMEOUT_WARNING; the others are unchanged |
| Payments.FindByReservationId | Reserve_And_Preorder_Owner_G2/src/main/java/at/htlle/reap/repository/PaymentRepository.java:15 | none exactly when no payment names the reservation; an error exactly when two do; otherwise that one payment |
| Payments.FindByPaymentStatus | Reserve_And_Preorder_Owner_G2/src/main/java/at/htlle/reap/repository/PaymentRepository.java:18 | exactly the payments in that status; each matching stored row appears exactly once |
| Payments.IsReservationPaid | Reserve_And_Preorder_Owner_G2/src/main/java/at/htlle/reap/service/PaymentService.java:214-217 | paid exactly when the reservation's one payment is COMPLETED |
| Payments.MethodSumsBounded | Reserve_And_Preorder_Owner_G2/src/main/java/at/htlle/reap/service/PaymentService.java:239-249 | the cash and card sums are non-negative and add up to at most the total |
| Payments.DaySumsBounded | Reserve_And_Preorder_Owner_G2/src/main/java/at/htlle/reap/service/PaymentService.java:232-258 | today's revenue lies between zero and the total, and today's count between zero and the number of payments |
| Payments.ListedAmountsNonNegative | Reserve_And_Preorder_Owner_G2/src/main/java/at/htlle/reap/service/PaymentService.java:225 | the listed payments have non-negative amounts when the stored ones do |
| Payments.StoredAmountNonNegative | Reserve_And_Preorder_Owner_G2/src/main/java/at/htlle/reap/service/PaymentService.java:225 | any stored payment has a non-negative amount when all do |
| Payments.StatsConsistent | Reserve_And_Preorder_Owner_G2/src/main/java/at/htlle/reap/service/PaymentService.java:222-267 | the statistics agree with each other: cash plus card and today's revenue are at most the total, and today's count is at most the count |
| Payments.StatsCoverCompleted | Reserve_And_Preorder_Owner_G2/src/main/java/at/htlle/reap/service/PaymentService.java:222-267 | the count is the number of stored COMPLETED payments and the total revenue is the sum of their amounts |
| Payments.GetPaymentStats | Reserve_And_Preorder_Owner_G2/src/main/java/at/htlle/reap/service/PaymentService.java:222-267 | the payment count is the number of stored COMPLETED payments |
| Payments.SumAll | Reserve_And_Preorder_Owner_G2/src/main/java/at/htlle/reap/service/PaymentService.java:228-230 | the sum of non-negative amounts is non-negative |
| Payments.SumByMethod | Reserve_And_Preorder_Owner_G2/src/main/java/at/htlle/reap/service/PaymentService.java:240-249 | a method's sum of non-negative amounts lies between zero and the sum over all methods |
| Payments.CompletedAt | Reserve_And_Preorder_Owner_G2/src/main/java/at/htlle/reap/service/PaymentService.java:49-53 | a completed payment is COMPLETED at `now` with its transaction id and keeps id, reservation, amount and method |
| Payments.PaymentService.constructor | Reserve_And_Preorder_Owner_G2/src/main/java/at/htlle/reap/service/PaymentService.java:29-32 | the service works on the given store and reservation service |
| Payments.PaymentService.CheckPayable | Reserve_And_Preorder_Owner_G2/src/main/java/at/htlle/reap/service/PaymentService.java:40-46 | a payment is refused for a missing reservation and for one already paid |
| Payments.PaymentService.ProcessCashPayment | Reserve_And_Preorder_Owner_G2/src/main/java/at/htlle/reap/service/PaymentService.java:39-59 | a payable reservation gets a new COMPLETED cash payment with transaction id `CASH_` and the time in milliseconds; a refusal stores nothing |
| Payments.PaymentService.ProcessMockCreditCardPayment | Reserve_And_Preorder_Owner_G2/src/main/java/at/htlle/reap/service/PaymentService.java:66-103 | a payable reservation gets a new COMPLETED card payment with transaction id `CARD_` and a UUID; an interruption reports the FAILED payment; a refusal stores nothing |
| Payments.PaymentService.ProcessMockPayPalPayment | Reserve_And_Preorder_Owner_G2/src/main/java/at/htlle/reap/service/PaymentService.java:110-153 | a payable reservation gets a new COMPLETED PayPal payment with transaction id `PAYPAL_` and a UUID; a decline reports the FAILED payment with `FAILED_` and the UUID; a refusal stores nothing |
| Payments.PaymentService.RefundPayment | Reserve_And_Preorder_Owner_G2/src/main/java/at/htlle/reap/service/PaymentService.java:159-179 | only a COMPLETED payment is refunded, and only it changes: it gets the refund amount and REFUNDED |
| Payments.PaymentService.GetPaymentByReservationId | Reserve_And_Preorder_Owner_G2/src/main/java/at/htlle/reap/service/PaymentService.java:184-187 | the reservation's one payment; "not found" when there is none |
| Payments.PaymentService.GetPaymentById | Reserve_And_Preorder_Owner_G2/src/main/java/at/htlle/reap/service/PaymentService.java:192-195 | the stored payment, or "not found" exactly when the id is absent |
| Payments.RefundedIsUnpaid | Reserve_And_Preorder_Owner_G2/src/main/java/at/htlle/reap/service/PaymentService.java:159-179 | a refund turns a paid reservation into an unpaid one |
| OrderQueries.FindByStatus | Reserve_And_Preorder_Cook_G2/src/main/java/at/htlle/reserveAndPreorderCookG2/repository/OrderRepository.java:16 | exactly the orders in that status; each matching stored row appears exactly once |
| OrderQueries.FindByReservationId | Reserve_And_Preorder_Cook_G2/src/main/java/at/htlle/reserveAndPreorderCookG2/repository/OrderRepository.java:21 | exactly the reservation's orders; each matching stored row appears exactly once |
| OrderQueries.FindByTableNumber | Reserve_And_Preorder_Cook_G2/src/main/java/at/htlle/reserveAndPreorderCookG2/repository/OrderRepository.java:26 | exactly the table's orders; each matching stored row appears exactly once |
| OrderQueries.FindByIsPreorder | Reserve_And_Preorder_Cook_G2/src/main/java/at/htlle/reserveAndPreorderCookG2/repository/OrderRepository.java:31 | exactly the orders with that preorder flag; each matching stored row appears exactly once |
| OrderQueries.FindActiveOrders | Reserve_And_Preorder_Cook_G2/src/main/java/at/htlle/reserveAndPreorderCookG2/repository/OrderRepository.java:36-37 | exactly the PENDING and IN_KITCHEN orders, oldest first; each matching stored row appears exactly once |
| OrderQueries.FindWaiterOrders | Reserve_And_Preorder_Cook_G2/src/main/java/at/htlle/reserveAndPreorderCookG2/repository/OrderRepository.java:42-43 | exactly the orders that are not CANCELLED, oldest first; each matching stored row appears exactly once |
| OrderQueries.FindByStatusOrderByOrderDateTimeAsc | Reserve_And_Preorder_Cook_G2/src/main/java/at/htlle/reserveAndPreorderCookG2/repository/OrderRepository.java:48 | exactly the orders in that status, oldest first; each matching stored row appears exactly once |
| OrderQueries.ActiveOrdersAreWaiterOrders | Reserve_And_Preorder_Cook_G2/src/main/java/at/htlle/reserveAndPreorderCookG2/repository/OrderRepository.java:36-43 | every order the cook sees is one the waiter sees, and so is every SERVED order |
| Kitchen.OrderRepository.constructor | Reserve_And_Preorder_Cook_G2/src/main/java/at/htlle/reserveAndPreorderCookG2/repository/OrderRepository.java:11-49 | an empty order store whose first id is 1 |
| Kitchen.PreorderItems | Reserve_And_Preorder_Cook_G2/src/main/java/at/htlle/reserveAndPreorderCookG2/service/OrderService.java:188-209 | one order line per requested item |
| Kitchen.ToOrderItem | Reserve_And_Preorder_Cook_G2/src/main/java/at/htlle/reserveAndPreorderCookG2/service/OrderService.java:192-197 | the order line copies name, quantity, menu item, unit price and instructions, and its line total is price times quantity, or 0 without a price |
| Kitchen.ItemsTotal | Reserve_And_Preorder_Cook_G2/src/main/java/at/htlle/reserveAndPreorderCookG2/service/OrderService.java:188-209 | the total of lines with non-negative line totals is non-negative |
| Kitchen.PreorderOrder | Reserve_And_Preorder_Cook_G2/src/main/java/at/htlle/reserveAndPreorderCookG2/service/OrderService.java:178-209 | the preorder is PENDING, flagged as a preorder, for the request's reservation, on "TBD" when no table is given, has one line per requested item (none without items), and costs the total of its lines |
| Kitchen.ItemsTotalAppend | Reserve_And_Preorder_Cook_G2/src/main/java/at/htlle/reserveAndPreorderCookG2/service/OrderService.java:188-209 | the running total over two lists of lines is the sum of their totals |
| Kitchen.ItemsTotalWithoutPrices | Reserve_And_Preorder_Cook_G2/src/main/java/at/htlle/reserveAndPreorderCookG2/service/OrderService.java:202-205 | the total is non-negative for non-negative lines, and zero when no line has a price |
| Kitchen.WithStatus | Reserve_And_Preorder_Cook_G2/src/main/java/at/htlle/reserveAndPreorderCookG2/service/OrderService.java:83-126 | a status change sets the status and keeps every other field |
| Kitchen.MarkedReady | Reserve_And_Preorder_Cook_G2/src/main/java/at/htlle/reserveAndPreorderCookG2/service/OrderService.java:95-102 | a ready order is READY with its delivery time `now`, and keeps every other field |
| Kitchen.LifecycleVisibility | Reserve_And_Preorder_Cook_G2/src/main/java/at/htlle/reserveAndPreorderCookG2/repository/OrderRepository.java:36-43 | PENDING and IN_KITCHEN orders are in both lists; READY and SERVED only in the waiter's; CANCELLED in neither |
| Kitchen.UpdateVisibility | Reserve_And_Preorder_Cook_G2/src/main/java/at/htlle/reserveAndPreorderCookG2/repository/OrderRepository.java:36-43 | after saving one order, whether it is listed depends only on its new status, and the other orders keep their place in the lists |
| Kitchen.OrderService.constructor | Reserve_And_Preorder_Cook_G2/src/main/java/at/htlle/reserveAndPreorderCookG2/service/OrderService.java:25-28 | the service works on the given store |
| Kitchen.OrderService.GetOrderById | Reserve_And_Preorder_Cook_G2/src/main/java/at/htlle/reserveAndPreorderCookG2/service/OrderService.java:61-64 | the stored order, or "not found" exactly when the id is absent |
| Kitchen.OrderService.CreateOrder | Reserve_And_Preorder_Cook_G2/src/main/java/at/htlle/reserveAndPreorderCookG2/service/OrderService.java:70-77 | the order is stored under a fresh id, PENDING when it had no status, and otherwise as given |
| Kitchen.OrderService.SetStatus | Reserve_And_Preorder_Cook_G2/src/main/java/at/htlle/reserveAndPreorderCookG2/service/OrderService.java:83-126 | only that order's status changes; a missing order is an error that changes nothing |
| Kitchen.OrderService.MarkAsInKitchen | Reserve_And_Preorder_Cook_G2/src/main/java/at/htlle/reserveAndPreorderCookG2/service/OrderService.java:83-89 | the order becomes IN_KITCHEN; a missing order is an error |
| Kitchen.OrderService.MarkAsReady | Reserve_And_Preorder_Cook_G2/src/main/java/at/htlle/reserveAndPreorderCookG2/service/OrderService.java:95-102 | the order becomes READY with its delivery time `now`; a missing order is an error |
| Kitchen.OrderService.MarkAsServed | Reserve_And_Preorder_Cook_G2/src/main/java/at/htlle/reserveAndPreorderCookG2/service/OrderService.java:108-114 | the order becomes SERVED; a missing order is an error |
| Kitchen.OrderService.CancelOrder | Reserve_And_Preorder_Cook_G2/src/main/java/at/htlle/reserveAndPreorderCookG2/service/OrderService.java:120-126 | the order becomes CANCELLED; a missing order is an error |
| Kitchen.OrderService.MarkAsDone | Reserve_And_Preorder_Cook_G2/src/main/java/at/htlle/reserveAndPreorderCookG2/service/OrderService.java:132-141 | a numeric id of a stored order marks it READY and answers true; anything else changes nothing and answers false |
| Kitchen.OrderService.BuildItems | Reserve_And_Preorder_Cook_G2/src/main/java/at/htlle/reserveAndPreorderCookG2/service/OrderService.java:188-209 | the item loop produces the converted lines and their total |
| Kitchen.OrderService.CreatePreorder | Reserve_And_Preorder_Cook_G2/src/main/java/at/htlle/reserveAndPreorderCookG2/service/OrderService.java:178-214 | a new PENDING preorder under a fresh id whose total is the sum of its lines |
| Kitchen.OrderService.GetWaiterOrders | Reserve_And_Preorder_Cook_G2/src/main/java/at/htlle/reserveAndPreorderCookG2/service/OrderService.java:47-49 | exactly the stored orders the waiter sees (a status present and not CANCELLED), each once, oldest first, and every one carries a status |
| Kitchen.OrderService.GetPreorders | Reserve_And_Preorder_Cook_G2/src/main/java/at/htlle/reserveAndPreorderCookG2/service/OrderService.java:219-221 | exactly the stored preorders; each matching stored row appears exactly once |
| Kitchen.NewPreorderIsActive | Reserve_And_Preorder_Cook_G2/src/main/java/at/htlle/reserveAndPreorderCookG2/service/OrderService.java:178-214 | a new preorder shows up in both the cook's and the waiter's lists |
| Waiter.WaiterTableStatusOf | Reserve_And_Preorder_Waiter_G2/src/main/java/at/htlle/reserve_and_preorder_g2/WaiterService.java:95-110 | RESERVED, OCCUPIED and CLEANING map to Reserviert, Belegt and Abservieren; every other status name maps to Leer |
| Waiter.TableStatusesDistinct | Reserve_And_Preorder_Waiter_G2/src/main/java/at/htlle/reserve_and_preorder_g2/WaiterService.java:95-110 | the mapping loses nothing: different Owner statuses show differently, and only AVAILABLE shows as Leer |
| Waiter.WaiterOrderStatusOf | Reserve_And_Preorder_Waiter_G2/src/main/java/at/htlle/reserve_and_preorder_g2/WaiterService.java:138-151 | READY maps to Bereit and SERVED to Serviert; every other status maps to Küche |
| Waiter.KitchenStatusAsSeenByWaiter | Reserve_And_Preorder_Waiter_G2/src/main/java/at/htlle/reserve_and_preorder_g2/WaiterService.java:138-151 | an order the cook still works on shows as Küche; one marked ready as Bereit; one served as Serviert |
| Waiter.ConvertToWaiterTable | Reserve_And_Preorder_Waiter_G2/src/main/java/at/htlle/reserve_and_preorder_g2/WaiterService.java:81-113 | the waiter's table keeps id, restaurant, capacity and binding, is named "Tisch " before its number, and shows the mapped status |
| Waiter.WaiterTables | Reserve_And_Preorder_Waiter_G2/src/main/java/at/htlle/reserve_and_preorder_g2/WaiterService.java:36-38 | one converted table per Owner table, in order |
| Waiter.FirstIndexOf | Reserve_And_Preorder_Waiter_G2/src/main/java/at/htlle/reserve_and_preorder_g2/WaiterService.java:48-50 | the position of the first table with that id, or the length when there is none |
| Waiter.BackfillShape | Reserve_And_Preorder_Waiter_G2/src/main/java/at/htlle/reserve_and_preorder_g2/WaiterService.java:46-59 | backfilling keeps every table except its binding, and leaves alone every table already bound |
| Waiter.Backfill | Reserve_And_Preorder_Waiter_G2/src/main/java/at/htlle/reserve_and_preorder_g2/WaiterService.java:46-59 | one table out per table in, and a table already bound is unchanged |
| Waiter.BackfillBinding | Reserve_And_Preorder_Waiter_G2/src/main/java/at/htlle/reserve_and_preorder_g2/WaiterService.java:46-59 | an unbound table gets the earliest reservation that claims it, or stays unbound |
| Waiter.FirstClaimIsEarliest | Reserve_And_Preorder_Waiter_G2/src/main/java/at/htlle/reserve_and_preorder_g2/WaiterService.java:46-59 | the claim found is the first open reservation on that table |
| Waiter.FirstClaimNone | Reserve_And_Preorder_Waiter_G2/src/main/java/at/htlle/reserve_and_preorder_g2/WaiterService.java:46-59 | no claim is found when no open reservation names the table |
| Waiter.ReservationTableIdsLookup | Reserve_And_Preorder_Waiter_G2/src/main/java/at/htlle/reserve_and_preorder_g2/WaiterService.java:62-67 | the map sends each reservation with a table to that table, and holds nothing else |
| Waiter.ReservationTableIds | Reserve_And_Preorder_Waiter_G2/src/main/java/at/htlle/reserve_and_preorder_g2/WaiterService.java:62-67 | every entry comes from a listed reservation with that id and that table |
| Waiter.ResolveTableId | Reserve_And_Preorder_Waiter_G2/src/main/java/at/htlle/reserve_and_preorder_g2/WaiterService.java:124-135 | a positive numeric table number is the table; otherwise the reservation's table (0 when it has none); without a reservation, the parsed number, or 0 when the number does not parse |
| Waiter.ResolveTableIdCases | Reserve_And_Preorder_Waiter_G2/src/main/java/at/htlle/reserve_and_preorder_g2/WaiterService.java:124-135 | a printed positive number resolves to itself; "TBD" resolves through the reservation |
| Waiter.WaiterItemsOf | Reserve_And_Preorder_Waiter_G2/src/main/java/at/htlle/reserve_and_preorder_g2/WaiterService.java:154-161 | an order without lines shows one line "Bestellung #id"; otherwise one line per order line |
| Waiter.WaiterOrderOf | Reserve_And_Preorder_Waiter_G2/src/main/java/at/htlle/reserve_and_preorder_g2/WaiterService.java:118-167 | the waiter's order keeps id, reservation and price; it is Bereit exactly for READY and Serviert exactly for SERVED; it shows one line per order line, or one line when there is none |
| Waiter.WaiterOrders | Reserve_And_Preorder_Waiter_G2/src/main/java/at/htlle/reserve_and_preorder_g2/WaiterService.java:71-73 | one waiter order per Cook order, in order, with the same id and price |
| Waiter.WaiterFeedHasStatuses | Reserve_And_Preorder_Cook_G2/src/main/java/at/htlle/reserveAndPreorderCookG2/repository/OrderRepository.java:42-43 | every order in the waiter's feed has a status |
| Waiter.WaiterItemsNonEmpty | Reserve_And_Preorder_Waiter_G2/src/main/java/at/htlle/reserve_and_preorder_g2/WaiterService.java:154-161 | an order always shows at least one line, and exactly one when it has at most one |
| Waiter.FirstOnTable | Reserve_And_Preorder_Waiter_G2/src/main/java/at/htlle/reserve_and_preorder_g2/WaiterService.java:265-269 | the answer is a listed reservation on the table, or none when none is on it |
| Waiter.FirstOnTableIndex | Reserve_And_Preorder_Waiter_G2/src/main/java/at/htlle/reserve_and_preorder_g2/WaiterService.java:265-269 | the answer sits at some position of the list and no earlier reservation is on the table |
| Waiter.WaiterService.constructor | Reserve_And_Preorder_Waiter_G2/src/main/java/at/htlle/reserve_and_preorder_g2/WaiterService.java:21-24 | the waiter works on the given Owner and Cook services, which share their stores |
| Waiter.WaiterService.BackfillBindings | Reserve_And_Preorder_Waiter_G2/src/main/java/at/htlle/reserve_and_preorder_g2/WaiterService.java:46-59 | the backfill loop computes the backfilled tables |
| Waiter.WaiterService.ReservationTableMap | Reserve_And_Preorder_Waiter_G2/src/main/java/at/htlle/reserve_and_preorder_g2/WaiterService.java:62-67 | the map loop computes the reservation-to-table map |
| Waiter.WaiterService.ConvertToWaiterOrder | Reserve_And_Preorder_Waiter_G2/src/main/java/at/htlle/reserve_and_preorder_g2/WaiterService.java:118-167 | the waiter's order has the resolved table, the mapped status and the shown lines |
| Waiter.WaiterService.GetState | Reserve_And_Preorder_Waiter_G2/src/main/java/at/htlle/reserve_and_preorder_g2/WaiterService.java:29-76 | the dashboard is computed from the Owner's stored tables and all stored reservations and from the Cook's waiter feed: the converted tables backfilled from the reservations, and each fed order converted with the reservation-to-table map |
| Waiter.WaiterService.CompleteActiveAt | Reserve_And_Preorder_Waiter_G2/src/main/java/at/htlle/reserve_and_preorder_g2/WaiterService.java:265-275 | the first checked-in reservation listed at the table, if any, becomes COMPLETED and the table CLEANING; otherwise both stores are unchanged; no other reservation changes and no id is used up |
| Waiter.WaiterService.FinishTable | Reserve_And_Preorder_Waiter_G2/src/main/java/at/htlle/reserve_and_preorder_g2/WaiterService.java:262-291 | the table's first checked-in reservation is completed and the table becomes AVAILABLE; the answer says whether the table exists |
| Waiter.WaiterService.SameCheckedInList | Reserve_And_Preorder_Owner_G2/src/main/java/at/htlle/reap/service/ResService.java:345-359 | the active list equals the list by status "CHECKED_IN" |
| Waiter.WaiterService.StoredActiveReservation | Reserve_And_Preorder_Waiter_G2/src/main/java/at/htlle/reserve_and_preorder_g2/WaiterService.java:265-273 | an active reservation is stored as listed and may be completed |
| Waiter.WaiterService.ProcessCashPayment | Reserve_And_Preorder_Waiter_G2/src/main/java/at/htlle/reserve_and_preorder_g2/WaiterService.java:194-208 | a cash payment for a stored reservation is recorded COMPLETED and the reservation is then completed where it can be |
| Waiter.WaiterService.ProcessCardPayment | Reserve_And_Preorder_Waiter_G2/src/main/java/at/htlle/reserve_and_preorder_g2/WaiterService.java:214-227 | as cash, through the mock card flow |
| Waiter.WaiterService.MarkOrderServed | Reserve_And_Preorder_Waiter_G2/src/main/java/at/htlle/reserve_and_preorder_g2/WaiterService.java:241-244 | the order becomes SERVED; a missing one changes nothing |
| Waiter.WaiterService.ClearTable | Reserve_And_Preorder_Waiter_G2/src/main/java/at/htlle/reserve_and_preorder_g2/WaiterService.java:249-256 | the table becomes CLEANING; a missing one changes nothing |
| Waiter.ReleaseThenAvailable | Reserve_And_Preorder_Waiter_G2/src/main/java/at/htlle/reserve_and_preorder_g2/WaiterService.java:273-278 | completing a table's reservation and then marking the table available leaves it AVAILABLE and unbound |
| Registration.TrimStart | Reserve_And_Preorder_Owner_G2/src/main/java/at/htlle/reap/controller/CustomerController.java:44 | drops a blank prefix and nothing more: the rest is a suffix that starts with a kept character |
| Registration.TrimEnd | Reserve_And_Preorder_Owner_G2/src/main/java/at/htlle/reap/controller/CustomerController.java:44 | drops a blank suffix and nothing more: the rest is a prefix that ends with a kept character |
| Registration.TrimEmptyIffBlank | Reserve_And_Preorder_Owner_G2/src/main/java/at/htlle/reap/controller/CustomerController.java:44-60 | trimming leaves nothing exactly when the text is blank |
| Registration.Trim | Reserve_And_Preorder_Owner_G2/src/main/java/at/htlle/reap/controller/CustomerController.java:44 | the trimmed text is no longer than the text, and neither starts nor ends with a character up to the space |
| Registration.IndexOf | Reserve_And_Preorder_Owner_G2/src/main/java/at/htlle/reap/controller/CustomerController.java:51 | the first position of a character, or the length |
| Registration.LastIndexOf | Reserve_And_Preorder_Owner_G2/src/main/java/at/htlle/reap/controller/CustomerController.java:51 | the last position of a character, or -1 |
| Registration.ValidEmailMatchesPattern | Reserve_And_Preorder_Owner_G2/src/main/java/at/htlle/reap/controller/CustomerController.java:51-53 | the email check accepts exactly what the regular expression matches |
| Registration.ValidEmailShape | Reserve_And_Preorder_Owner_G2/src/main/java/at/htlle/reap/controller/CustomerController.java:51-53 | an accepted address holds exactly one '@' and ends in a dot and two or more letters |
| Registration.ValidEmail | Reserve_And_Preorder_Owner_G2/src/main/java/at/htlle/reap/controller/CustomerController.java:51-53 | an accepted address has a non-empty part before its first '@', at least one character between it and the last '.', and at least two characters after that dot |
| Registration.ValidPhone | Reserve_And_Preorder_Owner_G2/src/main/java/at/htlle/reap/controller/CustomerController.java:62-64 | an optional '+' and then six or more digits, whitespace characters or '-' |
| Registration.CheckRegistration | Reserve_And_Preorder_Owner_G2/src/main/java/at/htlle/reap/controller/CustomerController.java:43-64 | each message is returned exactly when its check is the first that fails; none exactly when all pass |
| Registration.AcceptedRegistration | Reserve_And_Preorder_Owner_G2/src/main/java/at/htlle/reap/controller/CustomerController.java:43-64 | an accepted registration has a non-blank name and phone, a matching address with one '@', and a password of six or more |
| Registration.CheckLogin | Reserve_And_Preorder_Owner_G2/src/main/java/at/htlle/reap/controller/CustomerController.java:99-101 | a login is refused exactly when email or password is missing |
| Registration.CheckNewPassword | Reserve_And_Preorder_Owner_G2/src/main/java/at/htlle/reap/controller/CustomerController.java:197-199 | a new password is refused exactly when it is missing or shorter than six |
| Registration.BlankPhoneIsMissing | Reserve_And_Preorder_Owner_G2/src/main/java/at/htlle/reap/controller/CustomerController.java:58-64 | a phone number of six or more spaces passes the phone pattern but is reported as missing, since that check comes first |
| Cart.FindEntry | Reserve_And_Preorder_Customer_G2/src/main/resources/static/preorder.js:175 | `findIndex`: the first line for the item, or -1 when there is none |
| Cart.QuantityShowsPresence | Reserve_And_Preorder_Customer_G2/src/main/resources/static/preorder.js:190-196 | the shown quantity is never negative, and positive exactly when the item has a line |
| Cart.Without | Reserve_And_Preorder_Customer_G2/src/main/resources/static/preorder.js:181 | `splice` removes one line |
| Cart.Increased | Reserve_And_Preorder_Customer_G2/src/main/resources/static/preorder.js:155-171 | the cart grows by at most one line, and every existing line keeps its item and unit price |
| Cart.Decreased | Reserve_And_Preorder_Customer_G2/src/main/resources/static/preorder.js:174-187 | the cart shrinks by at most one line, and every line left for another item was already in the cart unchanged |
| Cart.Removed | Reserve_And_Preorder_Customer_G2/src/main/resources/static/preorder.js:199-206 | the cart shrinks by at most one line, and no line is added or changed |
| Cart.CartTotalAppend | Reserve_And_Preorder_Customer_G2/src/main/resources/static/preorder.js:243 | the total of two carts joined is the sum of their totals |
| Cart.CartTotal | Reserve_And_Preorder_Customer_G2/src/main/resources/static/preorder.js:243 | the `reduce` total of a cart whose lines have non-negative prices and quantities is non-negative |
| Cart.TotalAfterUpdate | Reserve_And_Preorder_Customer_G2/src/main/resources/static/preorder.js:243 | replacing a line changes the total by the difference of the two line totals |
| Cart.TotalAfterWithout | Reserve_And_Preorder_Customer_G2/src/main/resources/static/preorder.js:243 | removing a line lowers the total by that line's total |
| Cart.WithoutEffect | Reserve_And_Preorder_Customer_G2/src/main/resources/static/preorder.js:181 | removing a line drops the item to quantity 0, keeps every other item, and keeps the cart well formed |
| Cart.RequantifiedEffect | Reserve_And_Preorder_Customer_G2/src/main/resources/static/preorder.js:159-179 | changing a line's quantity changes only that item's quantity |
| Cart.IncreaseEffect | Reserve_And_Preorder_Customer_G2/src/main/resources/static/preorder.js:155-171 | one more of the item and no change to the others, keeping the lines distinct and positive |
| Cart.IncreaseTotal | Reserve_And_Preorder_Customer_G2/src/main/resources/static/preorder.js:155-171 | the total rises by the line's unit price, or by the new item's price |
| Cart.DecreaseEffect | Reserve_And_Preorder_Customer_G2/src/main/resources/static/preorder.js:174-187 | one fewer of the item, never below zero; the others keep their quantity; the cart stays well formed |
| Cart.RemoveEffect | Reserve_And_Preorder_Customer_G2/src/main/resources/static/preorder.js:199-206 | the item drops to zero, the others are kept, and the cart stays well formed |
| Cart.DecreaseUndoesIncrease | Reserve_And_Preorder_Customer_G2/src/main/resources/static/preorder.js:155-187 | lowering an item just raised gives back the cart as it was |
| Cart.DecreaseTotal | Reserve_And_Preorder_Customer_G2/src/main/resources/static/preorder.js:174-187 | lowering an item in the cart lowers the total by its unit price |
| Cart.RemoveTotal | Reserve_And_Preorder_Customer_G2/src/main/resources/static/preorder.js:199-206 | removing an item lowers the total by its line's total |
| Cart.ToPreorderItems | Reserve_And_Preorder_Customer_G2/src/main/resources/static/preorder.js:259-265 | one request item per cart line |
| Cart.PreorderPayload | Reserve_And_Preorder_Customer_G2/src/main/resources/static/preorder.js:247-268 | an empty cart sends nothing; otherwise the request carries the reservation, restaurant 1 by default, the lines, the notes (none for empty text) and the reservation time |
| Cart.PreorderLinesTotal | Reserve_And_Preorder_Customer_G2/src/main/resources/static/preorder.js:242-265 | the kitchen's total of the sent lines equals the cart's total |
| Cart.SubmittedPreorder | Reserve_And_Preorder_Cook_G2/src/main/java/at/htlle/reserveAndPreorderCookG2/service/OrderService.java:178-214 | the preorder the kitchen stores from a submitted cart costs the cart's total, has one line per cart line, and is a PENDING preorder on table "TBD" for the same reservation |
| Cart.ShoppingCart.constructor | Reserve_And_Preorder_Customer_G2/src/main/resources/static/preorder.js:2 | the cart starts empty |
| Cart.ShoppingCart.IncreaseQuantity | Reserve_And_Preorder_Customer_G2/src/main/resources/static/preorder.js:155-171 | the cart becomes the raised cart and stays well formed |
| Cart.ShoppingCart.DecreaseQuantity | Reserve_And_Preorder_Customer_G2/src/main/resources/static/preorder.js:174-187 | the cart becomes the lowered cart and stays well formed |
| Cart.ShoppingCart.RemoveFromCart | Reserve_And_Preorder_Customer_G2/src/main/resources/static/preorder.js:199-206 | the cart becomes the cart without the item and stays well formed |

## Left out

- Input and output: logging, console messages, HTTP routing and the controllers. Each controller's logic is reached through the service it calls.
- The clock is a parameter `now` in seconds. The time zone and `LocalDateTime` arithmetic beyond whole seconds are not modelled.
- Money is integer cents instead of `BigDecimal` (Owner), `double` (Waiter) or a JavaScript number (Customer). Rounding of floating-point money is not modelled.
- HMAC-SHA256 and Base64 are a `Codec` parameter with laws: decoding inverts encoding, and a signature is non-empty and free of ':'. The QR image (ZXing) is not modelled.
- Password hashing (BCrypt) and the rest of `CustomerService` (storage, duplicate emails, the old-password check) are not modelled. Registration ends at the validation chain.
- Randomness: the UUIDs, the PayPal decline (one time in twenty) and an interrupted delay are parameters of the payment methods; the two-second delay is not modelled.
- Concurrency, transactions and the `@Scheduled` intervals. Each service call is atomic, and a call that fails changes nothing.
- `checkTableCleanup` and `generateDailySummary` are not modelled: they only print.
- The demo order generator of the Cook service is not modelled.
- Domain.ToUpper: only ASCII letters are raised; Java's full Unicode `toUpperCase` is not modelled.
- Common.ParseLong: only ASCII digits are accepted; the Unicode digits `Long.parseLong` also accepts are not modelled.
- The remote calls between services (`OwnerApiClient`, `CookApiClient`) are direct calls on the shared stores. Network failures and the `null` answers they produce are not modelled.
- The Waiter's one-line forwards (`checkInReservation`, `completeReservation`, `createWalkIn`, `createOrder`, `getActiveReservations`, `getAllTables`) are the Owner and Cook operations they forward to.
- Kitchen.OrderService.CreateOrder: the incoming order is always stored as new; JPA would update an order that arrives with an existing id.
- Waiter.WaiterOrderStatusOf: a missing status on an order DTO is not modelled; the Cook's orders always carry one.
- Waiter.WaiterItemsOf: a missing item list on a Cook order is treated as an empty one.
- Waiter.WaiterService.CompleteActiveAt works on the active list, `GetActiveReservations` (the stored CHECKED_IN reservations); `Waiter.WaiterService.SameCheckedInList` ties that to `getReservationsByStatus("CHECKED_IN")`, which the Owner endpoint uses.
- Cart.PreorderPayload: the page's URL parameters arrive already parsed, as an optional integer; `parseInt` returning NaN is not modelled. `deliveryTime` is the page's reservation time, already parsed.
- The cart's DOM work (`renderCart`, `updateQuantityDisplay`'s display, `fetch`, `alert`) is not modelled, and neither are the menu loading and the restaurant list (`MenuService`, `RestaurantService`).
- The `orderDateTime` of a preorder is its creation time `now`.
- Reservations.ResService.CreateReservation: the auto-assigned table is bound to the request's id. A new request has none, so the table ends RESERVED with no `currentReservationId`, as the source leaves it.
- Registration.CheckRegistration: password length counts characters, not UTF-16 code units.
- Registration.CheckNewPassword: the same; `newPassword.length()` counts UTF-16 code units, and a character outside the Basic Multilingual Plane counts once here.
- Waiter.WaiterTableStatusOf: a table whose status is null is not modelled; the source's `switch` on it would throw a NullPointerException, and the Owner always sends a status.
- Tables.TableService.UpdateTable: an id that is not stored is inserted under a fresh id, as a `merge` that finds no row does in the Hibernate versions that copy the entity; versions that refuse such a merge are not modelled.
