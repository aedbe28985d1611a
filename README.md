# Ride Mumbai core: route planning and the ticket ledger, in Dafny

This project models the core of the Ride Mumbai metro back end and proves
properties of that model. The core has two parts.

**Route planning** (`RoutePlannerService`):
- `buildGraph` turns the station and route tables into an adjacency map from station name to node.
- `findFastestRoute` runs Dijkstra's algorithm on that map and returns one synthetic route (id -1) whose distance is the least total weight.
- `validateStations` checks that both station names exist.
- `calculateFare` prices a route at 2.5 per unit of distance, or a flat 20.0 when the distance is unknown.

**The booking ledger** (`TicketService`, `UserService.addToWallet`):
- `bookTicket` runs these steps in order: find or create the route, price it, take a mock payment (wallet payments are checked and then debited), create a BOOKED ticket, record a SUCCESS payment, and append a travel-history entry.
- `cancelTicket(ticketId, username)` refuses a missing ticket, a ticket the user does not own, and a ticket that is not BOOKED. Otherwise it refunds a wallet payment, marks the payment REFUNDED and marks the ticket CANCELLED.
- `addToWallet` credits a commuter's wallet.

## Layout

| file | module | contents |
|---|---|---|
| `wrappers.dfy` | `Wrappers` | `Option` for Java's nullable values; `Exceptional` for "returns normally or throws". |
| `entities.dfy` | `Entities` | One datatype per persisted entity and request DTO. Users are a sum type: `Commuter` or `Admin`. Also ASCII `equalsIgnoreCase`. |
| `shortest_path.dfy` | `ShortestPath` | Walks, walk weights and reachability. The search (`Dijkstra`, `RelaxEdges`, `ExtractMin`, `RebuildPath`) is written as imperative loops, with its invariants and the lemmas that keep them. |
| `graph_builder.dfy` | `GraphBuilder` | `buildGraph` as a function of the two tables, with lemmas about the graph it produces. |
| `store.dfy` | `Store` | The repositories as a class `Repositories`: its fields are the tables, and its methods are the repositories' `save` and `find` calls. `Db` is a value snapshot of all tables. `Valid` holds the tables' integrity constraints. |
| `route_planner.dfy` | `RoutePlanner` | `class RoutePlannerService` holds `metroGraph` and has the imperative `BuildGraph` and `FindFastestRoute`. Also `ValidateStations` and `CalculateFare`. |
| `ledger.dfy` | `Ledger` | Booking, cancellation and top-up written as functions from the tables before to the outcome and the tables after. |
| `ledger_laws.dfy` | `LedgerLaws` | The properties of those functions. |
| `ticket_service.dfy` | `Tickets` | `class TicketService`. Its methods write through `Repositories` step by step, as the Java does. Each method is proved equal to its `Ledger` function. |
| `user_service.dfy` | `Users` | `class UserService` with `AddToWallet`. |

Java exceptions are modelled as `Thrown(failure)`. The booking and
cancellation methods are `@Transactional`, so a thrown outcome leaves every
table as it was. This is modelled by `Repositories.Restore`, which the
booking method calls before it throws. Identifiers and UUIDs come from one
counter, `nextId`. The instant `LocalDateTime.now()` is a parameter, `now`.
The authenticated user is a parameter, `username`.

## Model

Source paths are relative to the repository root.

| member | source | states |
|---|---|---|
| RoutePlanner.RoutePlannerService.BuildGraph | src/main/java/com/ridemumbai/service/RoutePlannerService.java:40-60 | Afterwards, `metroGraph` is the graph built from the current station and route tables alone; the previous graph is discarded. It throws `NullPointerException` exactly when a route between two known stations has a null distance, and then leaves the graph as far as it got. |
| GraphBuilder.BuildShape | src/main/java/com/ridemumbai/service/RoutePlannerService.java:44-58 | The built graph has exactly one node per station name, each keyed by its own name. Every edge leads to a node. The build stops exactly when some route between known stations has a null distance. |
| GraphBuilder.BuildEdges | src/main/java/com/ridemumbai/service/RoutePlannerService.java:49-58 | With no null distance, each station's neighbour list is exactly its outgoing routes whose two endpoints are known stations, in table order, each weighted by the route distance. Routes naming an unknown station add nothing. |
| GraphBuilder.AddRoutesEdges | src/main/java/com/ridemumbai/service/RoutePlannerService.java:50-58 | The route loop appends to each node exactly the edges of its outgoing known routes, in order, and keeps the node's name. |
| GraphBuilder.AddRoutesNpe | src/main/java/com/ridemumbai/service/RoutePlannerService.java:54-56 | The route loop throws exactly when some route between known stations has a null distance. |
| GraphBuilder.AddRoutesStopped | src/main/java/com/ridemumbai/service/RoutePlannerService.java:50-58 | After the loop has thrown, the later routes change nothing. |
| GraphBuilder.AddRoutes | src/main/java/com/ridemumbai/service/RoutePlannerService.java:49-58 | The route loop, in table order, stopping at the first null distance between known stations. It never adds or removes a node. |
| GraphBuilder.Build | src/main/java/com/ridemumbai/service/RoutePlannerService.java:40-58 | The whole build: the station loop then the route loop. Its graph has exactly one node per station name. |
| GraphBuilder.AddRoutesWellFormed | src/main/java/com/ridemumbai/service/RoutePlannerService.java:51-56 | Each edge added leads to a node, and every node stays keyed by its own name. |
| GraphBuilder.BuildNonNegative | src/main/java/com/ridemumbai/service/RoutePlannerService.java:56 | Non-negative route distances give non-negative edge weights. |
| GraphBuilder.AddRoutesNonNegative | src/main/java/com/ridemumbai/service/RoutePlannerService.java:56 | Starting from non-negative weights, each edge the route loop adds carries a stored, non-negative route distance, so every weight stays non-negative. |
| GraphBuilder.NodesOf | src/main/java/com/ridemumbai/service/RoutePlannerService.java:44-46 | After the station loop, there is one edgeless node per station name. |
| RoutePlanner.HasStation | src/main/java/com/ridemumbai/repository/StationRepository.java:11 | `existsByName` holds exactly when some stored station has that name, that is, when the name is a node name of the built graph. |
| RoutePlanner.RoutePlannerService.ValidateStations | src/main/java/com/ridemumbai/service/RoutePlannerService.java:73-79 | True if and only if both names belong to stored stations. |
| RoutePlanner.RoutePlannerService.FindFastestRoute | src/main/java/com/ridemumbai/service/RoutePlannerService.java:81-156 | The graph is rebuilt first, and a null distance throws. Otherwise there is no route exactly when a station fails validation or no walk joins the two stations. A route that is returned has id -1, the requested endpoints, and a distance no walk undercuts. That distance is the weight of a walk whose stations are the returned path, and the path starts at the source and ends at the destination. From a station to itself the distance is 0. |
| ShortestPath.Dijkstra | src/main/java/com/ridemumbai/service/RoutePlannerService.java:89-143 | A present distance is a lower bound on every walk from source to destination, and some walk of exactly that weight has the returned stations. The distance is absent if and only if the destination is unreachable, and then the path is empty. |
| ShortestPath.ExtractMin | src/main/java/com/ridemumbai/service/RoutePlannerService.java:92-108 | `poll` returns a queued node with the least tentative distance. |
| ShortestPath.RelaxEdges | src/main/java/com/ridemumbai/service/RoutePlannerService.java:114-129 | Relaxing every edge of the polled node keeps the search invariant: distances are achieved by walks, the frontier is complete, the predecessor links are consistent, and the polled nodes stay settled. |
| ShortestPath.RebuildPath | src/main/java/com/ridemumbai/service/RoutePlannerService.java:138-143 | Following the predecessors back from the destination yields the stations of a walk from the source whose weight is the destination's distance. |
| ShortestPath.PolledIsShortest | src/main/java/com/ridemumbai/service/RoutePlannerService.java:107-111 | For a least queued node, no walk to it that starts at a polled node costs less, counting that polled node's distance, than its tentative distance. |
| ShortestPath.PolledDestination | src/main/java/com/ridemumbai/service/RoutePlannerService.java:107-111 | When the destination is polled (the early `break`), its tentative distance is a lower bound on every walk from the source to it. |
| ShortestPath.ExhaustedMeansUnreachable | src/main/java/com/ridemumbai/service/RoutePlannerService.java:133-136 | When the queue runs empty before the destination is polled, the destination's distance is still infinite and no walk reaches it. |
| ShortestPath.UnpolledIsUnreachable | src/main/java/com/ridemumbai/service/RoutePlannerService.java:107-130 | Once the queue is empty, no walk leads from a polled node to an unpolled node. |
| ShortestPath.Settles | src/main/java/com/ridemumbai/service/RoutePlannerService.java:108-129 | After all its edges are relaxed, the polled node joins the settled nodes and the search invariant holds again. |
| ShortestPath.WalkStops | src/main/java/com/ridemumbai/service/RoutePlannerService.java:138-143 | A walk's station list starts at its source and ends at its destination, and each station is joined to the next by an edge of the graph. |
| ShortestPath.PathWeightNonNegative | src/main/java/com/ridemumbai/service/RoutePlannerService.java:116 | With non-negative weights, every walk weighs at least 0. |
| ShortestPath.PathEndsInGraph | src/main/java/com/ridemumbai/service/RoutePlannerService.java:94-97 | A walk only arrives at nodes of the graph, so a missing node is unreachable. |
| RoutePlanner.CalculateFare | src/main/java/com/ridemumbai/service/RoutePlannerService.java:172-176 | Fare is `distance * 2.5` (the constant `FarePerKm`), or `20.0` (the constant `FlatFare`) without a distance. The fare is non-negative if and only if the distance is absent or non-negative. |
| RoutePlanner.FareMonotone | src/main/java/com/ridemumbai/service/RoutePlannerService.java:175 | A longer route never costs less. |
| Ledger.FindMatchingRoute | src/main/java/com/ridemumbai/service/TicketService.java:51-55 | A reused route is the first stored route, in table order, with the requested endpoints and an equal distance; every earlier route with those endpoints has a different, non-null distance. A throw means a route with those endpoints and a null distance came before any match. There is no match exactly when every route with those endpoints has a non-null, different distance; a null request distance matches nothing. |
| Ledger.ResolveRoute | src/main/java/com/ridemumbai/service/TicketService.java:51-66 | The route charged for has the requested endpoints and distance and is stored afterwards. Only the route table and the id counter may change. It throws exactly when the route lookup throws. |
| Ledger.ProcessMockPayment | src/main/java/com/ridemumbai/service/TicketService.java:112-130 | Throws exactly for a wallet payment with a null balance. The payment is accepted exactly when the method is not the wallet or the balance covers the amount. A declined payment changes nothing. |
| Ledger.IssueTicket | src/main/java/com/ridemumbai/service/TicketService.java:84-107 | After a successful payment, the issued ticket is returned, BOOKED, stored under its own id, for the commuter, the route and the fare. |
| Ledger.BookTicket | src/main/java/com/ridemumbai/service/TicketService.java:31-108 | Any outcome other than a booked ticket leaves every table as it was (the transaction rollback). A booked ticket belongs to the authenticated user, is BOOKED, and is stored under its own id. |
| Ledger.CancelTicket | src/main/java/com/ridemumbai/service/TicketService.java:188-231 | Answers false exactly in the refusal cases: missing ticket, missing user, wrong owner, or not BOOKED. Any outcome other than success changes nothing. A success starts from a BOOKED ticket and stores it as CANCELLED. |
| Ledger.AddToWallet | src/main/java/com/ridemumbai/service/UserService.java:19-40 | A throw changes nothing. A success returns a commuter with a balance, for an existing user, and that commuter is what is stored under its name. |
| LedgerLaws.ResolvedRouteFitsRequest | src/main/java/com/ridemumbai/service/TicketService.java:51-70 | The route charged for has the requested start, end and distance, so its fare is the request's fare. Either the tables are unchanged, or exactly that route was saved under id `nextId`. Under the integrity constraints, that id is used by no stored row. |
| LedgerLaws.BookTicketOutcomes | src/main/java/com/ridemumbai/service/TicketService.java:39-81 | A ticket is booked if and only if the user exists and is a commuter, no route comparison throws, and the payment is covered. A non-commuter gets an empty result. An unknown user gets "Authenticated user not found". An uncovered wallet payment gets "Insufficient wallet balance.". Whenever no ticket is booked, no table changes. |
| LedgerLaws.BookTicketCreatesTicket | src/main/java/com/ridemumbai/service/TicketService.java:84-95 | The ticket is BOOKED and stored under a fresh id. It carries the commuter's id, the request's fare, ticket type and instant, and the id of a stored route with the requested endpoints and distance. No other ticket changes. |
| LedgerLaws.BookTicketCharges | src/main/java/com/ridemumbai/service/TicketService.java:98-100 | Exactly one payment row is added: SUCCESS, linked to the new ticket, for the fare, by the request's method. A wallet payment debits exactly the fare. No other user record changes. |
| LedgerLaws.BookTicketLogsJourney | src/main/java/com/ridemumbai/service/TicketService.java:103-104 | Exactly one history entry is appended: for the ticket and commuter, at the booking instant, between the requested stations, with the ticket's fare. The station table is untouched, and at most one route is added. |
| LedgerLaws.IssueTicketWrites | src/main/java/com/ridemumbai/service/TicketService.java:84-107 | The rows the issuing step writes, in order, and the identifiers and UUIDs each one draws. |
| LedgerLaws.BookTicketIssues | src/main/java/com/ridemumbai/service/TicketService.java:70-83 | A booked ticket means the route was resolved and the payment succeeded before the ticket was issued. |
| LedgerLaws.BookTicketKeepsValid | src/main/java/com/ridemumbai/service/TicketService.java:31-108 | Booking keeps every integrity constraint: users keyed by name, tickets keyed by id, each payment linked to a ticket with at most one payment per ticket, history linked to tickets, and every stored id and UUID below `nextId`. |
| LedgerLaws.AppendKeepsValid | src/main/java/com/ridemumbai/model/Payment.java:23 | Adding a fresh ticket with its one payment and history row, and perhaps one route, all with ids and UUIDs below the new `nextId`, keeps the constraints. In particular it respects the NOT NULL and UNIQUE constraints on the payment's ticket id. |
| LedgerLaws.BookTicketFreshIds | src/main/java/com/ridemumbai/service/TicketService.java:85-104 | The identifiers and UUIDs a booking draws are used by no row stored before it, and are pairwise distinct. That covers the ride code's UUID, the ticket id, the transaction UUID, the payment id and the history id, plus the id of a route it saves, which differs from the others too. |
| LedgerLaws.BookTicketKeepsWalletsNonNegative | src/main/java/com/ridemumbai/service/TicketService.java:112-130 | Booking never makes a wallet negative, whatever the requested distance: a wallet is debited only when its balance covers the fare. |
| LedgerLaws.BookTicketKeepsAmountsNonNegative | src/main/java/com/ridemumbai/service/TicketService.java:70-100 | With a non-negative requested distance, booking records no negative payment amount. |
| LedgerLaws.ProcessMockPaymentOutcomes | src/main/java/com/ridemumbai/service/TicketService.java:112-130 | It throws exactly for a wallet payment with a null balance. It succeeds exactly when the payment is covered. A covered wallet payment debits exactly the amount and leaves the balance at or above 0. Every other outcome changes nothing. |
| Tickets.TicketService.ProcessMockPayment | src/main/java/com/ridemumbai/service/TicketService.java:112-130 | The answer and the new tables are those of `Ledger.ProcessMockPayment`. |
| Tickets.TicketService.SavePaymentRecord | src/main/java/com/ridemumbai/service/TicketService.java:132-143 | One payment row is stored, stamped with the current instant. Under the integrity constraints, its id is used by no row stored before. |
| Tickets.TicketService.GenerateQRCodeData | src/main/java/com/ridemumbai/service/TicketService.java:145-150 | The ride code carries the commuter, the route and the instant. Under the integrity constraints, its UUID is used by no stored row (no ride code, transaction reference or id), and the constraints still hold after it is drawn. |
| Tickets.TicketService.AddJourneyToHistory | src/main/java/com/ridemumbai/service/TicketService.java:152-162 | One history row is stored, mirroring the ticket's instant and fare and the route's endpoints. |
| Tickets.TicketService.BookTicket | src/main/java/com/ridemumbai/service/TicketService.java:31-108 | The outcome and the new tables are exactly those of `Ledger.BookTicket`. That includes the rollback of everything, the FAILED payment record included, when the booking throws. |
| Tickets.TicketService.CancelTicket | src/main/java/com/ridemumbai/service/TicketService.java:188-231 | The outcome and the new tables are exactly those of `Ledger.CancelTicket`. |
| Store.Repositories.FindPaymentByTicketId | src/main/java/com/ridemumbai/service/TicketService.java:210 | The scan finds the first payment row linked to the ticket, or reports that none is. |
| Store.PaymentIndex | src/main/java/com/ridemumbai/repository/PaymentRepository.java:10 | A row that is found is linked to the ticket, and no earlier row is. No row is found if and only if no row is linked. |
| Store.Repositories.Restore | src/main/java/com/ridemumbai/service/TicketService.java:31 | The rollback puts every table back to the snapshot. |
| Store.GeneratedIdsUnused | src/main/java/com/ridemumbai/service/TicketService.java:149 | Under the integrity constraints, a drawn UUID and the generated id of a new route, ticket, payment or history row are used by no stored row. Drawing a UUID or saving a route keeps the constraints. |
| Store.NotYetIssued | src/main/java/com/ridemumbai/model/Payment.java:18-19 | Under the integrity constraints, every identifier from `nextId` on is still unused, as a database `IDENTITY` column promises. |
| LedgerLaws.CancelTicketOutcomes | src/main/java/com/ridemumbai/service/TicketService.java:190-225 | The answer is false if and only if the ticket is missing, the user is missing or does not own it, or it is not BOOKED. It throws if and only if a payment is linked and either the owner is not a commuter or a wallet refund meets a null balance. A refusal or a throw changes nothing. |
| LedgerLaws.CancelTicketEffects | src/main/java/com/ridemumbai/service/TicketService.java:209-230 | A successful cancel makes the ticket CANCELLED. A linked payment becomes REFUNDED, and a wallet payment's amount is credited back to the owner. Nothing else changes. |
| LedgerLaws.CancelTicketOnce | src/main/java/com/ridemumbai/service/TicketService.java:205-207 | Cancelling again returns false and changes nothing, so no ticket is refunded twice. |
| LedgerLaws.CancelTicketKeepsValid | src/main/java/com/ridemumbai/service/TicketService.java:188-231 | Cancelling keeps every integrity constraint of the tables. |
| LedgerLaws.CancelTicketKeepsSolvent | src/main/java/com/ridemumbai/service/TicketService.java:216-220 | A refund only adds a non-negative amount, so wallets and payment amounts stay non-negative. |
| LedgerLaws.CancelRefundsDebit | src/main/java/com/ridemumbai/service/TicketService.java:210-230 | Cancelling a ticket just added, whose new payment is its only linked row and whose fare was debited from the paying wallet, succeeds. The ticket becomes CANCELLED and the payment REFUNDED, and exactly the fare is credited back. |
| LedgerLaws.BookThenCancelRefunds | src/main/java/com/ridemumbai/service/TicketService.java:188-231 | Cancelling a ticket right after booking it succeeds. The ticket ends CANCELLED, its payment REFUNDED, and the wallet exactly as before the booking. |
| LedgerLaws.WalletRoundTripExample | src/main/java/com/ridemumbai/service/TicketService.java:117-120 | Worked example. A balance of 10.0 and a "wallet" booking of distance 2.0 give a fare of 5.0 and a balance of 5.0. Cancelling brings the balance back to 10.0. |
| Users.UserService.AddToWallet | src/main/java/com/ridemumbai/service/UserService.java:19-40 | The outcome and the new tables are exactly those of `Ledger.AddToWallet`. |
| LedgerLaws.AddToWalletOutcomes | src/main/java/com/ridemumbai/service/UserService.java:20-39 | The top-up succeeds if and only if the user is a commuter and the amount is present. The returned commuter is the stored one with only its balance changed, now the old balance (null counting as 0) plus the amount. It is stored under the same name, and no other table changes. An unknown user gets "User not found: <name>". A non-commuter gets "Only commuters have a wallet.". A throw changes nothing. |
| LedgerLaws.AddToWalletKeepsInvariants | src/main/java/com/ridemumbai/service/UserService.java:29-36 | A top-up of any amount keeps the integrity constraints and leaves payment amounts alone. A non-negative top-up keeps every wallet non-negative. |

## Left out

- HTTP controllers, security configuration, JWT authentication and the Spring bootstrap are not part of this model. The `SecurityContextHolder` lookup is replaced by the `username` parameter.
- The repository interfaces are modelled as sequences and maps in `Store.Repositories`. JPA query semantics are not modelled: collation, and the order in which `findByStartStationNameAndEndStationName` returns rows (taken as table order).
- Floating point is modelled as `real`. IEEE rounding of `* 2.5` and of the sums is not modelled, and `Double.equals` on distances is real equality, so NaN and -0.0 are not distinguished.
- `Double.MAX_VALUE` as "not reached" is modelled as a separate `Inf` value. A walk that really weighs `Double.MAX_VALUE` is therefore not confused with an unreached node.
- The `PriorityQueue` is modelled as the set of queued nodes. Its remove-then-add keeps each node queued at most once. Ties are broken by whichever least entry the scan meets, and every contract holds for every tie-break.
- RoutePlanner.RoutePlannerService.FindFastestRoute: requires non-negative stored distances. The source does not check them; with a negative cycle the Java search need not terminate, and Dijkstra's answer is not a minimum.
- `@PostConstruct` is not modelled: the constructor leaves `metroGraph` empty and the caller runs `BuildGraph`. `findFastestRoute` rebuilds the graph anyway.
- `initializeMockData`, `getStationList`, `findAlternativeRoutes` and `getTransferPoints` are placeholders that only log or return constant lists, so they are left out.
- The one-argument `cancelTicket(Long)` is a stub that always returns false, so it is left out.
- `getUserTickets` and `getTravelHistory` are read-only listings outside the modelled ledger, so they are left out.
- UUIDs, generated ids and `LocalDateTime.now()` are modelled as follows. Every id and UUID is drawn from the one counter `nextId`. A single instant `now` stands for all clock reads of a booking. The ride code is a `RideCode` value, not its formatted string.
- The FAILED payment record is saved with a null ticket id, which the NOT NULL column of `Payment.java:23` rejects at the database. The model saves it and then rolls it back with the rest of the booking, as the following `IllegalStateException` does. It does not model the database refusing the insert first.
- `findById(user.getUserId())` in `cancelTicket` is modelled as the user record found by name. That assumes user ids are unique, which the user table (not part of this model) is expected to enforce.
- `equalsIgnoreCase` is modelled with ASCII case mapping only.
- Concurrency, locking and isolation between transactions are not modelled. Each call runs alone and atomically.
- Logging is left out.
- LedgerLaws.BookTicketKeepsAmountsNonNegative: assumes a non-negative requested distance, because the source accepts any distance and a negative one makes a negative fare. Wallet balances stay non-negative without that assumption (`BookTicketKeepsWalletsNonNegative`).
- LedgerLaws.AddToWalletKeepsInvariants: keeps wallets non-negative only for a non-negative amount, because `addToWallet` accepts a negative top-up. The integrity constraints hold for every amount.
- Store.PaymentIndex: takes the first payment row linked to the ticket. If two rows shared a ticket id, Spring Data's single-result `findByTicketId` would throw `IncorrectResultSizeDataAccessException` instead; the model does not reproduce that exception. Under the integrity constraints (`PaymentsUnique`, the UNIQUE column of `Payment.java:23`), at most one row is linked, so the two agree there.

## Behaviour of the code worth knowing

The model follows the code in each case.

- Cancellation checks the ticket's owner and status, but never the linked payment's status. A BOOKED ticket is cancelled and its payment marked REFUNDED even when that payment is not SUCCESS. A BOOKED ticket with no payment at all is cancelled too (`TicketService.java:209-230`).
- `cancelTicket` answers `false` alike for a missing ticket, a caller who does not own it, and a ticket that is not BOOKED (`TicketService.java:190-207`). A caller cannot tell the three apart.
- `bookTicket` never checks that the two station names exist. It reuses a matching route or creates a new one for any pair of names (`TicketService.java:51-66`).
- Wallets are not kept non-negative by the code as such. `addToWallet` accepts a negative amount (`UserService.java:33`), and a negative requested distance gives a negative fare that credits the wallet. Non-negativity holds only under the assumptions stated in the lemmas.
- On a declined wallet payment, `bookTicket` saves a FAILED payment record and then throws `IllegalStateException` inside the same `@Transactional` method (`TicketService.java:76-81`). The rollback removes that record, so no audit trail of the failed attempt survives.
- `findFastestRoute` returns the same `Optional.empty()` for an unknown station (`RoutePlannerService.java:85-87`) and for two valid stations with no connecting walk (`RoutePlannerService.java:133-136`). A caller cannot tell the two apart. `FindFastestRoute`'s contract characterises the empty result as the disjunction of the two.
