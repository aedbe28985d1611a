/**
 * The booking, cancellation and wallet transactions as functions from the
 * tables before to the outcome and the tables after. Each is one
 * transaction: when it throws, every table is left as it was.
 */
module Ledger {
  import opened Wrappers
  import opened Entities
  import opened Store
  import opened RoutePlanner

  /** A stored route with the requested endpoints. */
  predicate Joins(r: Route, start: string, end: string) {
    r.startStationName == start && r.endStationName == end
  }

  /** A route with the requested endpoints whose distance equals the requested one (`Double.equals`). */
  predicate Matches(r: Route, start: string, end: string, distance: Option<real>) {
    Joins(r, start, end) && r.distance.Some? && r.distance == distance
  }

  /** A route with the requested endpoints the distance filter passes over without throwing. */
  predicate PassedOver(r: Route, start: string, end: string, distance: Option<real>) {
    Joins(r, start, end) ==> r.distance.Some? && r.distance != distance
  }

  /**
   * The lookup of a reusable route: the routes with the requested
   * endpoints are filtered, in table order, for the requested distance and
   * the first hit is taken. Comparing a route whose distance is null
   * throws; a null requested distance matches nothing.
   */
  function FindMatchingRoute(routes: seq<Route>, start: string, end: string, distance: Option<real>)
    : (r: Exceptional<Option<Route>>)
    ensures r.Normal? && r.value.Some? ==>
              exists k :: 0 <= k < |routes| && routes[k] == r.value.value && Matches(routes[k], start, end, distance) &&
                          forall j :: 0 <= j < k ==> PassedOver(routes[j], start, end, distance)
    ensures r.Thrown? ==>
              r.failure == NullPointer &&
              exists k :: 0 <= k < |routes| && Joins(routes[k], start, end) && routes[k].distance.None? &&
                          forall j :: 0 <= j < k ==> PassedOver(routes[j], start, end, distance)
    ensures r == Normal(None) <==> forall k :: 0 <= k < |routes| ==> PassedOver(routes[k], start, end, distance)
    decreases |routes|
  {
    if routes == [] then Normal(None)
    else
      var x := routes[0];
      if Joins(x, start, end) && x.distance.None? then Thrown(NullPointer)
      else if Matches(x, start, end, distance) then Normal(Some(x))
      else
        var rest := FindMatchingRoute(routes[1..], start, end, distance);
        assert forall k :: 0 < k < |routes| ==> routes[k] == routes[1..][k - 1];
        rest
  }

  /**
   * The route a booking is charged for: the first matching stored route,
   * or else a new route with the requested endpoints and distance, saved.
   */
  function ResolveRoute(db: Db, request: BookTicketRequest): (r: Exceptional<(Route, Db)>)
    ensures r.Normal? ==>
              Joins(r.value.0, request.startStationName, request.endStationName) &&
              r.value.0.distance == request.distance && r.value.0 in r.value.1.routes
    ensures r.Normal? ==>
              var db' := r.value.1;
              db'.stations == db.stations && db'.users == db.users && db'.tickets == db.tickets &&
              db'.payments == db.payments && db'.history == db.history
    ensures r.Thrown? <==>
              FindMatchingRoute(db.routes, request.startStationName, request.endStationName, request.distance).Thrown?
  {
    match FindMatchingRoute(db.routes, request.startStationName, request.endStationName, request.distance)
    case Thrown(f) => Thrown(f)
    case Normal(Some(route)) => Normal((route, db))
    case Normal(None) =>
      Normal(InsertRoute(db, Route(0, request.startStationName, request.endStationName, request.distance)))
  }

  /**
   * `processMockPayment`: a wallet payment succeeds and debits the wallet
   * when the balance covers the amount and fails otherwise; comparing a
   * null balance throws. Every other method succeeds without a charge.
   */
  function ProcessMockPayment(db: Db, commuter: User, amount: real, paymentMethod: string): (r: Exceptional<(bool, Db)>)
    requires commuter.Commuter?
    ensures r.Thrown? <==> IsWallet(paymentMethod) && commuter.walletBalance.None?
    ensures r.Normal? ==> (r.value.0 <==> !IsWallet(paymentMethod) || commuter.walletBalance.value >= amount)
    ensures r.Normal? && !r.value.0 ==> r.value.1 == db
  {
    if IsWallet(paymentMethod) then
      match commuter.walletBalance
      case None => Thrown(NullPointer)
      case Some(balance) =>
        if balance >= amount then Normal((true, PutUser(db, commuter.(walletBalance := Some(balance - amount)))))
        else Normal((false, db))
    else Normal((true, db))
  }

  /** `savePaymentRecord`: a new payment row stamped with the current instant. */
  function SavePaymentRecord(db: Db, ticketId: Option<int>, amount: real, paymentMethod: string,
                             status: PaymentStatus, transactionId: TransactionRef, now: Timestamp): (Payment, Db)
  {
    InsertPayment(db, Payment(0, ticketId, amount, now, paymentMethod, status, transactionId))
  }

  /** `addJourneyToHistory`: a history entry for the ticket's journey along the route. */
  function AddJourneyToHistory(db: Db, commuterId: int, ticket: Ticket, route: Route): Db {
    InsertHistory(db, TravelHistory(0, commuterId, ticket.ticketId, ticket.bookingDateTime,
                                    route.startStationName, route.endStationName, ticket.fare)).1
  }

  /** The part of `bookTicket` after a successful payment: ticket, payment record, history entry. */
  function IssueTicket(db: Db, commuterId: int, route: Route, fare: real, request: BookTicketRequest, now: Timestamp)
    : (r: (Exceptional<Option<Ticket>>, Db))
    ensures r.0.Normal? && r.0.value.Some?
    ensures var t := r.0.value.value;
            t.ticketId in r.1.tickets && r.1.tickets[t.ticketId] == t && t.status == Booked &&
            t.commuterId == commuterId && t.routeId == route.routeId && t.fare == fare
  {
    var qr := FreshUuid(db);
    var issued := InsertTicket(qr.1, Ticket(0, commuterId, route.routeId, fare, now, request.ticketType,
                                            RideCode(commuterId, route.routeId, now, qr.0), Booked));
    var txn := FreshUuid(issued.1);
    var paid := SavePaymentRecord(txn.1, Some(issued.0.ticketId), fare, request.paymentMethod, Success, MockTxn(txn.0), now);
    (Normal(Some(issued.0)), AddJourneyToHistory(paid.1, commuterId, issued.0, route))
  }

  /**
   * `bookTicket` for the authenticated user `username` at instant `now`.
   * A user who is not a commuter gets no ticket. A failed payment is
   * recorded as FAILED and the booking throws, which rolls that record
   * back together with everything else.
   */
  function BookTicket(db: Db, username: string, request: BookTicketRequest, now: Timestamp)
    : (r: (Exceptional<Option<Ticket>>, Db))
    ensures !(r.0.Normal? && r.0.value.Some?) ==> r.1 == db
    ensures r.0.Normal? && r.0.value.Some? ==>
              var t := r.0.value.value;
              username in db.users && t.commuterId == db.users[username].userId &&
              t.ticketId in r.1.tickets && r.1.tickets[t.ticketId] == t && t.status == Booked
  {
    if username !in db.users then (Thrown(IllegalState("Authenticated user not found")), db)
    else
      var user := db.users[username];
      if !user.Commuter? then (Normal(None), db)
      else
        match ResolveRoute(db, request)
        case Thrown(f) => (Thrown(f), db)
        case Normal(resolved) =>
          var fare := CalculateFare(resolved.0);
          match ProcessMockPayment(resolved.1, user, fare, request.paymentMethod)
          case Thrown(f) => (Thrown(f), db)
          case Normal(paid) =>
            if !paid.0 then (Thrown(IllegalState("Insufficient wallet balance.")), db)
            else IssueTicket(paid.1, user.userId, resolved.0, fare, request, now)
  }

  /** Why `cancelTicket` answers false: no such ticket, not the owner, or not booked. */
  predicate CancelRefused(db: Db, ticketId: int, username: string) {
    ticketId !in db.tickets || username !in db.users ||
    db.users[username].userId != db.tickets[ticketId].commuterId || db.tickets[ticketId].status != Booked
  }

  /**
   * `cancelTicket(ticketId, username)`: the owner of a booked ticket gets
   * it cancelled; its payment, if any, is marked refunded, and a wallet
   * payment is credited back. Looking the owner up as a commuter fails for
   * any other kind of user; crediting a null balance throws.
   */
  function CancelTicket(db: Db, ticketId: int, username: string): (r: (Exceptional<bool>, Db))
    ensures r.0 == Normal(false) <==> CancelRefused(db, ticketId, username)
    ensures r.0 != Normal(true) ==> r.1 == db
    ensures r.0 == Normal(true) ==>
              ticketId in db.tickets && db.tickets[ticketId].status == Booked &&
              var t := db.tickets[ticketId];
              t.ticketId in r.1.tickets && r.1.tickets[t.ticketId] == t.(status := Cancelled)
  {
    if CancelRefused(db, ticketId, username) then (Normal(false), db)
    else
      var ticket := db.tickets[ticketId];
      var user := db.users[username];
      match PaymentIndex(db.payments, ticketId)
      case None => (Normal(true), PutTicket(db, ticket.(status := Cancelled)))
      case Some(k) =>
        var payment := db.payments[k];
        if !user.Commuter? then (Thrown(ClassCast), db)
        else if IsWallet(payment.paymentMethod) && user.walletBalance.None? then (Thrown(NullPointer), db)
        else
          var credited :=
            if IsWallet(payment.paymentMethod)
            then PutUser(db, user.(walletBalance := Some(user.walletBalance.value + payment.amount)))
            else db;
          var refunded := PutPayment(credited, k, payment.(status := Refunded));
          (Normal(true), PutTicket(refunded, ticket.(status := Cancelled)))
  }

  /**
   * `addToWallet(username, amount)`: the commuter's balance, a null one
   * counting as zero, grows by the amount; the updated commuter is
   * returned. Adding a null amount throws.
   */
  function AddToWallet(db: Db, username: string, amount: Option<real>): (r: (Exceptional<User>, Db))
    ensures r.0.Thrown? ==> r.1 == db
    ensures r.0.Normal? ==>
              username in db.users && r.0.value.Commuter? && r.0.value.walletBalance.Some? &&
              r.0.value.username in r.1.users && r.1.users[r.0.value.username] == r.0.value
  {
    if username !in db.users then (Thrown(IllegalArgument("User not found: " + username)), db)
    else
      var user := db.users[username];
      if !user.Commuter? then (Thrown(IllegalState("Only commuters have a wallet.")), db)
      else if amount.None? then (Thrown(NullPointer), db)
      else
        var updated := user.(walletBalance := Some(user.walletBalance.GetOr(0.0) + amount.value));
        (Normal(updated), PutUser(db, updated))
  }
}
