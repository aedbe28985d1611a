/**
 * What the booking, cancellation and wallet transactions promise: when
 * each succeeds, refuses or throws, exactly what each changes, that they
 * keep the tables' integrity constraints and wallets from going negative,
 * that a ticket is refunded at most once, and that cancelling a fresh
 * booking gives the commuter their money back.
 */
module LedgerLaws {
  import opened Wrappers
  import opened Entities
  import opened Store
  import opened RoutePlanner
  import opened Ledger

  /** The fare of a route with the requested endpoints and distance. */
  function RequestFare(request: BookTicketRequest): real {
    CalculateFare(Route(DynamicRouteId, request.startStationName, request.endStationName, request.distance))
  }

  /** The commuter can pay `amount` by `paymentMethod`. */
  predicate Covers(user: User, amount: real, paymentMethod: string)
    requires user.Commuter?
  {
    !IsWallet(paymentMethod) || (user.walletBalance.Some? && user.walletBalance.value >= amount)
  }

  /** No commuter's wallet holds a negative balance. */
  ghost predicate WalletsNonNegative(db: Db) {
    forall name :: name in db.users && db.users[name].Commuter? && db.users[name].walletBalance.Some? ==>
      db.users[name].walletBalance.value >= 0.0
  }

  /** No payment has a negative amount. */
  ghost predicate AmountsNonNegative(db: Db) {
    forall k :: 0 <= k < |db.payments| ==> db.payments[k].amount >= 0.0
  }

  /** Every table except the ones a transaction writes is as before. */
  predicate SameExceptUsers(db: Db, db': Db) {
    db'.stations == db.stations && db'.routes == db.routes && db'.tickets == db.tickets &&
    db'.payments == db.payments && db'.history == db.history && db'.nextId == db.nextId
  }

  // ---------------------------------------------------------------------
  // Booking

  /** The route a booking is charged for has the requested endpoints and distance, and so the request's fare. */
  lemma ResolvedRouteFitsRequest(db: Db, request: BookTicketRequest)
    requires ResolveRoute(db, request).Normal?
    ensures var route := ResolveRoute(db, request).value.0;
            Joins(route, request.startStationName, request.endStationName) &&
            route.distance == request.distance && CalculateFare(route) == RequestFare(request)
    ensures var (route, db') := ResolveRoute(db, request).value;
            db' == db ||
            (db' == db.(routes := db.routes + [route], nextId := db.nextId + 1) && route.routeId == db.nextId &&
             (Valid(db) ==> Unused(db, route.routeId)))
  {
    if Valid(db) {
      NotYetIssued(db, db.nextId);
    }
  }

  /**
   * The mock payment: a wallet payment covered by the balance debits it by
   * exactly the amount, leaving it non-negative; an uncovered one fails and
   * changes nothing; a null balance throws. Any other method succeeds and
   * changes nothing.
   */
  lemma ProcessMockPaymentOutcomes(db: Db, commuter: User, amount: real, paymentMethod: string)
    requires commuter.Commuter?
    ensures var r := ProcessMockPayment(db, commuter, amount, paymentMethod);
            r.Thrown? <==> IsWallet(paymentMethod) && commuter.walletBalance.None?
    ensures var r := ProcessMockPayment(db, commuter, amount, paymentMethod);
            r.Normal? ==> (r.value.0 <==> Covers(commuter, amount, paymentMethod))
    ensures var r := ProcessMockPayment(db, commuter, amount, paymentMethod);
            r.Normal? && r.value.0 && IsWallet(paymentMethod) ==>
              var balance := commuter.walletBalance.value - amount;
              balance >= 0.0 && r.value.1 == db.(users := db.users[commuter.username := commuter.(walletBalance := Some(balance))])
    ensures var r := ProcessMockPayment(db, commuter, amount, paymentMethod);
            r.Normal? && !(r.value.0 && IsWallet(paymentMethod)) ==> r.value.1 == db
  {
  }

  /** The rows the issuing step writes, and the identifiers and UUIDs it draws, in order. */
  lemma IssueTicketWrites(db: Db, commuterId: int, route: Route, fare: real, request: BookTicketRequest, now: Timestamp)
    ensures var (r, db') := IssueTicket(db, commuterId, route, fare, request, now);
            var id := db.nextId + 1;
            var t := Ticket(id, commuterId, route.routeId, fare, now, request.ticketType,
                            RideCode(commuterId, route.routeId, now, db.nextId), Booked);
            r == Normal(Some(t)) &&
            db' == db.(tickets := db.tickets[id := t],
                       payments := db.payments + [Payment(db.nextId + 3, Some(id), fare, now, request.paymentMethod,
                                                          Success, MockTxn(db.nextId + 2))],
                       history := db.history + [TravelHistory(db.nextId + 4, commuterId, id, now, route.startStationName,
                                                              route.endStationName, fare)],
                       nextId := db.nextId + 5)
  {
  }

  /**
   * When `bookTicket` books: exactly when the user is a commuter, no route
   * comparison throws and the payment is covered. It returns no ticket
   * exactly for a user who is not a commuter; otherwise it throws, and
   * whenever it does not book, no table changes.
   */
  lemma BookTicketOutcomes(db: Db, username: string, request: BookTicketRequest, now: Timestamp)
    ensures var (r, db') := BookTicket(db, username, request, now);
            (r.Normal? && r.value.Some?) <==>
              username in db.users && db.users[username].Commuter? &&
              FindMatchingRoute(db.routes, request.startStationName, request.endStationName, request.distance).Normal? &&
              Covers(db.users[username], RequestFare(request), request.paymentMethod)
    ensures var (r, db') := BookTicket(db, username, request, now);
            r == Normal(None) <==> username in db.users && !db.users[username].Commuter?
    ensures var (r, db') := BookTicket(db, username, request, now);
            !(r.Normal? && r.value.Some?) ==> db' == db
    ensures username !in db.users ==>
              BookTicket(db, username, request, now).0 == Thrown(IllegalState("Authenticated user not found"))
    ensures username in db.users && db.users[username].Commuter? &&
            FindMatchingRoute(db.routes, request.startStationName, request.endStationName, request.distance).Normal? &&
            IsWallet(request.paymentMethod) && db.users[username].walletBalance.Some? &&
            db.users[username].walletBalance.value < RequestFare(request) ==>
              BookTicket(db, username, request, now).0 == Thrown(IllegalState("Insufficient wallet balance."))
  {
    if username in db.users && db.users[username].Commuter? && ResolveRoute(db, request).Normal? {
      ResolvedRouteFitsRequest(db, request);
    }
  }

  /** A successful booking has resolved its route and been paid for, and then issues the ticket. */
  lemma BookTicketIssues(db: Db, username: string, request: BookTicketRequest, now: Timestamp)
    requires BookTicket(db, username, request, now).0.Normal? && BookTicket(db, username, request, now).0.value.Some?
    ensures username in db.users && db.users[username].Commuter? && ResolveRoute(db, request).Normal?
    ensures var resolved := ResolveRoute(db, request).value;
            var paid := ProcessMockPayment(resolved.1, db.users[username], CalculateFare(resolved.0), request.paymentMethod);
            paid.Normal? && paid.value.0 &&
            BookTicket(db, username, request, now) ==
              IssueTicket(paid.value.1, db.users[username].userId, resolved.0, CalculateFare(resolved.0), request, now)
  {
  }

  /**
   * The ticket a successful booking creates: BOOKED, under a fresh id, for
   * the commuter, charged the request's fare, on a stored route with the
   * requested endpoints and distance.
   */
  lemma BookTicketCreatesTicket(db: Db, username: string, request: BookTicketRequest, now: Timestamp)
    requires TicketsKeyed(db)
    requires BookTicket(db, username, request, now).0.Normal? && BookTicket(db, username, request, now).0.value.Some?
    ensures username in db.users && db.users[username].Commuter?
    ensures var (r, db') := BookTicket(db, username, request, now);
            var t := r.value.value;
            t.ticketId !in db.tickets && db.nextId <= t.ticketId < db'.nextId &&
            db'.tickets == db.tickets[t.ticketId := t] &&
            t.commuterId == db.users[username].userId && t.fare == RequestFare(request) && t.status == Booked &&
            t.bookingDateTime == now && t.ticketType == request.ticketType
    ensures var (r, db') := BookTicket(db, username, request, now);
            exists k :: 0 <= k < |db'.routes| && db'.routes[k].routeId == r.value.value.routeId &&
                        Joins(db'.routes[k], request.startStationName, request.endStationName) &&
                        db'.routes[k].distance == request.distance
  {
    BookTicketIssues(db, username, request, now);
    ResolvedRouteFitsRequest(db, request);
    var resolved := ResolveRoute(db, request).value;
    var paid := ProcessMockPayment(resolved.1, db.users[username], CalculateFare(resolved.0), request.paymentMethod);
    IssueTicketWrites(paid.value.1, db.users[username].userId, resolved.0, CalculateFare(resolved.0), request, now);
    var db' := BookTicket(db, username, request, now).1;
    assert db'.routes == resolved.1.routes;
    match FindMatchingRoute(db.routes, request.startStationName, request.endStationName, request.distance)
    case Normal(Some(found)) =>
      var k :| 0 <= k < |db.routes| && db.routes[k] == found &&
               Matches(db.routes[k], request.startStationName, request.endStationName, request.distance);
      assert db'.routes[k] == found;
    case Normal(None) =>
      assert db'.routes[|db.routes|] == resolved.0;
  }

  /**
   * The payment a successful booking records, as the one new payment row:
   * SUCCESS, linked to the ticket, for the fare; and the wallet, for a
   * wallet payment, debited by exactly the fare.
   */
  lemma BookTicketCharges(db: Db, username: string, request: BookTicketRequest, now: Timestamp)
    requires UsersKeyed(db)
    requires BookTicket(db, username, request, now).0.Normal? && BookTicket(db, username, request, now).0.value.Some?
    ensures username in db.users && db.users[username].Commuter?
    ensures var (r, db') := BookTicket(db, username, request, now);
            var t := r.value.value;
            |db'.payments| == |db.payments| + 1 && db'.payments[..|db.payments|] == db.payments &&
            var p := db'.payments[|db.payments|];
            p.ticketId == Some(t.ticketId) && p.amount == t.fare && p.status == Success &&
            p.paymentMethod == request.paymentMethod && p.paymentDateTime == now
    ensures var (r, db') := BookTicket(db, username, request, now);
            var t := r.value.value;
            var user := db.users[username];
            t.fare == RequestFare(request) &&
            (IsWallet(request.paymentMethod) ==> user.walletBalance.Some? && user.walletBalance.value >= t.fare) &&
            db'.users == if IsWallet(request.paymentMethod)
                         then db.users[username := user.(walletBalance := Some(user.walletBalance.value - t.fare))]
                         else db.users
  {
    BookTicketIssues(db, username, request, now);
    ResolvedRouteFitsRequest(db, request);
    var resolved := ResolveRoute(db, request).value;
    var paid := ProcessMockPayment(resolved.1, db.users[username], CalculateFare(resolved.0), request.paymentMethod);
    IssueTicketWrites(paid.value.1, db.users[username].userId, resolved.0, CalculateFare(resolved.0), request, now);
  }

  /**
   * The history entry a successful booking appends, for the ticket's
   * journey at the booking instant; stations are untouched and at most one
   * route is added.
   */
  lemma BookTicketLogsJourney(db: Db, username: string, request: BookTicketRequest, now: Timestamp)
    requires BookTicket(db, username, request, now).0.Normal? && BookTicket(db, username, request, now).0.value.Some?
    ensures var (r, db') := BookTicket(db, username, request, now);
            var t := r.value.value;
            |db'.history| == |db.history| + 1 && db'.history[..|db.history|] == db.history &&
            var h := db'.history[|db.history|];
            h.commuterId == t.commuterId && h.ticketId == t.ticketId && h.journeyDateTime == now &&
            h.startStationName == request.startStationName && h.endStationName == request.endStationName &&
            h.farePaid == t.fare
    ensures var (r, db') := BookTicket(db, username, request, now);
            db'.stations == db.stations &&
            (db'.routes == db.routes || (|db'.routes| == |db.routes| + 1 && db'.routes[..|db.routes|] == db.routes))
  {
    BookTicketIssues(db, username, request, now);
    ResolvedRouteFitsRequest(db, request);
    var resolved := ResolveRoute(db, request).value;
    var paid := ProcessMockPayment(resolved.1, db.users[username], CalculateFare(resolved.0), request.paymentMethod);
    IssueTicketWrites(paid.value.1, db.users[username].userId, resolved.0, CalculateFare(resolved.0), request, now);
  }

  /**
   * Adding one fresh ticket with its payment and history rows, and perhaps
   * one route, all under identifiers below the new `nextId`, keeps the
   * integrity constraints.
   */
  lemma AppendKeepsValid(db: Db, db': Db, t: Ticket)
    requires Valid(db) && UsersKeyed(db') && db.nextId <= db'.nextId
    requires t.ticketId !in db.tickets && db.nextId <= t.ticketId < db'.nextId && db'.tickets == db.tickets[t.ticketId := t]
    requires t.qrCodeData.uuid < db'.nextId
    requires |db'.payments| == |db.payments| + 1 && db'.payments[..|db.payments|] == db.payments
    requires db'.payments[|db.payments|].ticketId == Some(t.ticketId)
    requires db'.payments[|db.payments|].paymentId < db'.nextId && db'.payments[|db.payments|].transactionId.uuid < db'.nextId
    requires |db'.history| == |db.history| + 1 && db'.history[..|db.history|] == db.history
    requires db'.history[|db.history|].ticketId == t.ticketId && db'.history[|db.history|].historyId < db'.nextId
    requires db'.routes == db.routes ||
             (|db'.routes| == |db.routes| + 1 && db'.routes[..|db.routes|] == db.routes &&
              db'.routes[|db.routes|].routeId < db'.nextId)
    ensures Valid(db')
  {
    var n := |db.payments|;
    assert forall k :: 0 <= k < n ==> db'.payments[k] == db.payments[k];
    assert forall k :: 0 <= k < |db.history| ==> db'.history[k] == db.history[k];
    assert forall k :: 0 <= k < |db.routes| ==> db'.routes[k] == db.routes[k];
    forall j, k | 0 <= j < k < |db'.payments|
      ensures db'.payments[j].ticketId != db'.payments[k].ticketId
    {
      if k == n {
        assert db.payments[j].ticketId.value in db.tickets;
      }
    }
  }

  /** A booking keeps every integrity constraint of the tables. */
  lemma BookTicketKeepsValid(db: Db, username: string, request: BookTicketRequest, now: Timestamp)
    requires Valid(db)
    ensures Valid(BookTicket(db, username, request, now).1)
  {
    var (r, db') := BookTicket(db, username, request, now);
    if r.Normal? && r.value.Some? {
      BookTicketCreatesTicket(db, username, request, now);
      BookTicketCharges(db, username, request, now);
      BookTicketLogsJourney(db, username, request, now);
      BookTicketFreshIds(db, username, request, now);
      assert UsersKeyed(db');
      AppendKeepsValid(db, db', r.value.value);
    } else {
      BookTicketOutcomes(db, username, request, now);
    }
  }

  /** A booking never makes a wallet negative, whatever the requested distance. */
  lemma BookTicketKeepsWalletsNonNegative(db: Db, username: string, request: BookTicketRequest, now: Timestamp)
    requires Valid(db) && WalletsNonNegative(db)
    ensures WalletsNonNegative(BookTicket(db, username, request, now).1)
  {
    var (r, db') := BookTicket(db, username, request, now);
    if r.Normal? && r.value.Some? {
      BookTicketCharges(db, username, request, now);
      BookTicketOutcomes(db, username, request, now);
    }
  }

  /** With a non-negative requested distance, a booking records no negative payment. */
  lemma BookTicketKeepsAmountsNonNegative(db: Db, username: string, request: BookTicketRequest, now: Timestamp)
    requires Valid(db) && AmountsNonNegative(db)
    requires request.distance.Some? ==> request.distance.value >= 0.0
    ensures AmountsNonNegative(BookTicket(db, username, request, now).1)
  {
    var (r, db') := BookTicket(db, username, request, now);
    if r.Normal? && r.value.Some? {
      BookTicketCharges(db, username, request, now);
      assert forall k :: 0 <= k < |db.payments| ==> db'.payments[k] == db.payments[k];
    }
  }

  /**
   * Every identifier and UUID a booking draws is used by no row stored
   * before it, and they are pairwise distinct: the ride code's UUID, the
   * ticket id, the transaction UUID, the payment id, the history id, and
   * the id of a route it saves.
   */
  lemma BookTicketFreshIds(db: Db, username: string, request: BookTicketRequest, now: Timestamp)
    requires Valid(db)
    requires BookTicket(db, username, request, now).0.Normal? && BookTicket(db, username, request, now).0.value.Some?
    ensures var (r, db') := BookTicket(db, username, request, now);
            var t := r.value.value;
            |db'.payments| == |db.payments| + 1 && |db'.history| == |db.history| + 1 &&
            var ids := [t.qrCodeData.uuid, t.ticketId, db'.payments[|db.payments|].transactionId.uuid,
                        db'.payments[|db.payments|].paymentId, db'.history[|db.history|].historyId];
            (forall i :: 0 <= i < |ids| ==> Unused(db, ids[i]) && ids[i] < db'.nextId) &&
            (forall i, j :: 0 <= i < j < |ids| ==> ids[i] != ids[j])
    ensures var (r, db') := BookTicket(db, username, request, now);
            db'.routes == db.routes ||
            (|db'.routes| == |db.routes| + 1 && db'.routes[..|db.routes|] == db.routes &&
             Unused(db, db'.routes[|db.routes|].routeId) && db'.routes[|db.routes|].routeId < r.value.value.qrCodeData.uuid)
  {
    BookTicketIssues(db, username, request, now);
    ResolvedRouteFitsRequest(db, request);
    var resolved := ResolveRoute(db, request).value;
    var paid := ProcessMockPayment(resolved.1, db.users[username], CalculateFare(resolved.0), request.paymentMethod);
    IssueTicketWrites(paid.value.1, db.users[username].userId, resolved.0, CalculateFare(resolved.0), request, now);
    var m := paid.value.1.nextId;
    assert m >= db.nextId;
    forall x | m <= x
      ensures Unused(db, x)
    {
      NotYetIssued(db, x);
    }
  }

  // ---------------------------------------------------------------------
  // Cancellation

  /**
   * `cancelTicket` answers false exactly for a missing ticket, a user who
   * does not own it or a ticket not booked; it throws exactly when a
   * payment is linked and its owner is not a commuter, or the wallet to be
   * credited is null. Neither a refusal nor a throw changes any table.
   */
  lemma CancelTicketOutcomes(db: Db, ticketId: int, username: string)
    ensures CancelTicket(db, ticketId, username).0 == Normal(false) <==> CancelRefused(db, ticketId, username)
    ensures CancelTicket(db, ticketId, username).0.Thrown? <==>
              !CancelRefused(db, ticketId, username) && PaymentIndex(db.payments, ticketId).Some? &&
              var user := db.users[username];
              var payment := db.payments[PaymentIndex(db.payments, ticketId).value];
              (!user.Commuter? || (IsWallet(payment.paymentMethod) && user.walletBalance.None?))
    ensures CancelTicket(db, ticketId, username).0 != Normal(true) ==> CancelTicket(db, ticketId, username).1 == db
  {
  }

  /**
   * What a successful cancellation writes: the ticket becomes CANCELLED;
   * its payment, if there is one, becomes REFUNDED and, for a wallet
   * payment, its amount is credited back to the wallet. Nothing else changes.
   */
  lemma CancelTicketEffects(db: Db, ticketId: int, username: string)
    requires TicketsKeyed(db) && UsersKeyed(db)
    requires CancelTicket(db, ticketId, username).0 == Normal(true)
    ensures ticketId in db.tickets && username in db.users && db.tickets[ticketId].status == Booked
    ensures var db' := CancelTicket(db, ticketId, username).1;
            db'.tickets == db.tickets[ticketId := db.tickets[ticketId].(status := Cancelled)] &&
            db'.stations == db.stations && db'.routes == db.routes && db'.history == db.history &&
            db'.nextId == db.nextId
    ensures var db' := CancelTicket(db, ticketId, username).1;
            match PaymentIndex(db.payments, ticketId)
            case None => db'.payments == db.payments && db'.users == db.users
            case Some(k) =>
              var payment := db.payments[k];
              var user := db.users[username];
              db'.payments == db.payments[k := payment.(status := Refunded)] &&
              db'.users == if IsWallet(payment.paymentMethod)
                           then db.users[username := user.(walletBalance := Some(user.walletBalance.value + payment.amount))]
                           else db.users
  {
  }

  /** A cancelled ticket cannot be cancelled again: the second call refuses and changes nothing. */
  lemma CancelTicketOnce(db: Db, ticketId: int, username: string)
    requires TicketsKeyed(db) && UsersKeyed(db)
    requires CancelTicket(db, ticketId, username).0 == Normal(true)
    ensures var db' := CancelTicket(db, ticketId, username).1;
            CancelTicket(db', ticketId, username) == (Normal(false), db')
  {
    CancelTicketEffects(db, ticketId, username);
  }

  /** A cancellation keeps every integrity constraint of the tables. */
  lemma CancelTicketKeepsValid(db: Db, ticketId: int, username: string)
    requires Valid(db)
    ensures Valid(CancelTicket(db, ticketId, username).1)
  {
    if CancelTicket(db, ticketId, username).0 == Normal(true) {
      CancelTicketEffects(db, ticketId, username);
    }
  }

  /** A refund only ever adds a non-negative amount, so wallets and payments stay non-negative. */
  lemma CancelTicketKeepsSolvent(db: Db, ticketId: int, username: string)
    requires Valid(db) && WalletsNonNegative(db) && AmountsNonNegative(db)
    ensures WalletsNonNegative(CancelTicket(db, ticketId, username).1)
    ensures AmountsNonNegative(CancelTicket(db, ticketId, username).1)
  {
    if CancelTicket(db, ticketId, username).0 == Normal(true) {
      CancelTicketEffects(db, ticketId, username);
    }
  }

  /**
   * Cancelling a ticket just added to the tables, whose payment is the
   * only row linked to it and whose fare was debited from a wallet paying
   * for it, succeeds, marks the ticket CANCELLED and the payment REFUNDED,
   * and credits the fare back.
   */
  lemma CancelRefundsDebit(db: Db, booked: Db, t: Ticket, username: string, paymentMethod: string)
    requires TicketsKeyed(db) && UsersKeyed(db) && PaymentsLinked(db)
    requires username in db.users && db.users[username].Commuter? && db.users[username].userId == t.commuterId
    requires t.ticketId !in db.tickets && db.nextId <= t.ticketId < booked.nextId && t.status == Booked
    requires booked.tickets == db.tickets[t.ticketId := t]
    requires |booked.payments| == |db.payments| + 1 && booked.payments[..|db.payments|] == db.payments
    requires booked.payments[|db.payments|].ticketId == Some(t.ticketId)
    requires booked.payments[|db.payments|].amount == t.fare && booked.payments[|db.payments|].paymentMethod == paymentMethod
    requires IsWallet(paymentMethod) ==> db.users[username].walletBalance.Some?
    requires booked.users == if IsWallet(paymentMethod)
                             then db.users[username := db.users[username].(walletBalance :=
                                                                             Some(db.users[username].walletBalance.value - t.fare))]
                             else db.users
    ensures var (c, cancelled) := CancelTicket(booked, t.ticketId, username);
            c == Normal(true) &&
            t.ticketId in cancelled.tickets && cancelled.tickets[t.ticketId].status == Cancelled &&
            |db.payments| < |cancelled.payments| && cancelled.payments[|db.payments|].status == Refunded &&
            username in cancelled.users && cancelled.users[username].walletBalance == db.users[username].walletBalance
  {
    var n := |db.payments|;
    assert TicketsKeyed(booked) && UsersKeyed(booked);
    forall j | 0 <= j < n
      ensures booked.payments[j].ticketId != Some(t.ticketId)
    {
      assert booked.payments[j] == db.payments[j];
      assert db.payments[j].ticketId.value in db.tickets;
    }
    FirstMatchIsIndex(booked.payments, t.ticketId, n);
    CancelTicketEffects(booked, t.ticketId, username);
  }

  /**
   * Cancelling a ticket right after booking it succeeds, marks the ticket
   * CANCELLED and its payment REFUNDED, and leaves the wallet exactly as it
   * was before the booking.
   */
  lemma BookThenCancelRefunds(db: Db, username: string, request: BookTicketRequest, now: Timestamp)
    requires Valid(db)
    requires BookTicket(db, username, request, now).0.Normal? && BookTicket(db, username, request, now).0.value.Some?
    ensures username in db.users
    ensures var (r, booked) := BookTicket(db, username, request, now);
            var t := r.value.value;
            var (c, cancelled) := CancelTicket(booked, t.ticketId, username);
            c == Normal(true) &&
            t.ticketId in cancelled.tickets && cancelled.tickets[t.ticketId].status == Cancelled &&
            |db.payments| < |cancelled.payments| && cancelled.payments[|db.payments|].status == Refunded &&
            username in cancelled.users && cancelled.users[username].walletBalance == db.users[username].walletBalance
  {
    BookTicketCreatesTicket(db, username, request, now);
    BookTicketCharges(db, username, request, now);
    var booked := BookTicket(db, username, request, now).1;
    var t := BookTicket(db, username, request, now).0.value.value;
    CancelRefundsDebit(db, booked, t, username, request.paymentMethod);
  }

  /**
   * A concrete wallet round trip: a commuter holding 10.0 books a trip of
   * distance 2.0 (fare 5.0) and holds 5.0; cancelling it brings the wallet
   * back to 10.0.
   */
  lemma WalletRoundTripExample()
    ensures var db := Db([], [], map["asha" := Commuter(7, "asha", Some(10.0), "9820000000", "REGULAR")], map[], [], [], 1);
            var request := BookTicketRequest("Andheri", "Ghatkopar", Some(2.0), "SINGLE", "wallet");
            var (r, booked) := BookTicket(db, "asha", request, 0);
            r.Normal? && r.value.Some? && r.value.value.fare == 5.0 && r.value.value.status == Booked &&
            "asha" in booked.users && booked.users["asha"].walletBalance == Some(5.0) &&
            |booked.payments| == 1 && booked.payments[0].status == Success &&
            var (c, cancelled) := CancelTicket(booked, r.value.value.ticketId, "asha");
            c == Normal(true) && "asha" in cancelled.users && cancelled.users["asha"].walletBalance == Some(10.0)
  {
    var db := Db([], [], map["asha" := Commuter(7, "asha", Some(10.0), "9820000000", "REGULAR")], map[], [], [], 1);
    var request := BookTicketRequest("Andheri", "Ghatkopar", Some(2.0), "SINGLE", "wallet");
    assert IsWallet(request.paymentMethod);
    BookTicketOutcomes(db, "asha", request, 0);
    BookTicketCharges(db, "asha", request, 0);
    BookThenCancelRefunds(db, "asha", request, 0);
  }

  // ---------------------------------------------------------------------
  // Wallet top-up

  /**
   * `addToWallet` succeeds exactly for a commuter and a present amount;
   * the returned commuter's balance exceeds the old one (null counting as
   * zero) by exactly the amount and is what is stored. Otherwise it throws
   * the matching exception and changes nothing.
   */
  lemma AddToWalletOutcomes(db: Db, username: string, amount: Option<real>)
    requires UsersKeyed(db)
    ensures var (r, db') := AddToWallet(db, username, amount);
            r.Normal? <==> username in db.users && db.users[username].Commuter? && amount.Some?
    ensures var (r, db') := AddToWallet(db, username, amount);
            r.Normal? ==>
              var before := db.users[username];
              r.value == before.(walletBalance := Some(before.walletBalance.GetOr(0.0) + amount.value)) &&
              r.value.username == username &&
              db'.users == db.users[username := r.value] && SameExceptUsers(db, db')
    ensures var (r, db') := AddToWallet(db, username, amount);
            r.Thrown? ==> db' == db
    ensures username !in db.users ==>
              AddToWallet(db, username, amount).0 == Thrown(IllegalArgument("User not found: " + username))
    ensures username in db.users && !db.users[username].Commuter? ==>
              AddToWallet(db, username, amount).0 == Thrown(IllegalState("Only commuters have a wallet."))
  {
  }

  /**
   * A top-up keeps every integrity constraint and leaves payment amounts
   * alone; a top-up by a non-negative amount keeps wallets non-negative.
   */
  lemma AddToWalletKeepsInvariants(db: Db, username: string, amount: Option<real>)
    requires Valid(db)
    ensures Valid(AddToWallet(db, username, amount).1)
    ensures AmountsNonNegative(db) ==> AmountsNonNegative(AddToWallet(db, username, amount).1)
    ensures WalletsNonNegative(db) && (amount.Some? ==> amount.value >= 0.0) ==>
              WalletsNonNegative(AddToWallet(db, username, amount).1)
  {
  }
}
