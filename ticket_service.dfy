/**
 * The ticket service: booking a ticket for the authenticated commuter and
 * cancelling one, writing through the shared repositories. Each public
 * operation runs as one transaction; when it throws, the repositories are
 * rolled back to the state it started from.
 */
module Tickets {
  import opened Wrappers
  import opened Entities
  import opened Store
  import opened RoutePlanner
  import Ledger

  class TicketService {
    const store: Repositories

    constructor (store: Repositories)
      ensures this.store == store
    {
      this.store := store;
    }

    /** `processMockPayment`: debits a covering wallet; any other method is accepted. */
    method ProcessMockPayment(commuter: User, amount: real, paymentMethod: string) returns (r: Exceptional<bool>)
      requires commuter.Commuter?
      modifies store
      ensures match Ledger.ProcessMockPayment(old(store.Snapshot()), commuter, amount, paymentMethod)
              case Thrown(f) => r == Thrown(f) && store.Snapshot() == old(store.Snapshot())
              case Normal(paid) => r == Normal(paid.0) && store.Snapshot() == paid.1
    {
      if IsWallet(paymentMethod) {
        if commuter.walletBalance.None? {
          return Thrown(NullPointer);
        }
        if commuter.walletBalance.value >= amount {
          store.SaveUser(commuter.(walletBalance := Some(commuter.walletBalance.value - amount)));
          return Normal(true);
        }
        return Normal(false);
      }
      r := Normal(true);
    }

    /** `savePaymentRecord`: stores a payment stamped with the current instant. */
    method SavePaymentRecord(ticketId: Option<int>, amount: real, paymentMethod: string, status: PaymentStatus,
                             transactionId: TransactionRef, now: Timestamp) returns (saved: Payment)
      modifies store
      ensures (saved, store.Snapshot()) ==
              Ledger.SavePaymentRecord(old(store.Snapshot()), ticketId, amount, paymentMethod, status, transactionId, now)
      ensures old(Valid(store.Snapshot())) ==> Unused(old(store.Snapshot()), saved.paymentId)
    {
      ghost var before := store.Snapshot();
      saved := store.SaveNewPayment(Payment(0, ticketId, amount, now, paymentMethod, status, transactionId));
      if Valid(before) {
        NotYetIssued(before, saved.paymentId);
      }
    }

    /** `generateQRCodeData`: the ride code for a commuter, route and instant, with a fresh UUID. */
    method GenerateQRCodeData(commuterId: int, routeId: int, timestamp: Timestamp) returns (code: RideCode)
      modifies store
      ensures code == RideCode(commuterId, routeId, timestamp, old(store.nextId))
      ensures store.Snapshot() == FreshUuid(old(store.Snapshot())).1
      ensures old(Valid(store.Snapshot())) ==> Unused(old(store.Snapshot()), code.uuid) && Valid(store.Snapshot())
    {
      ghost var before := store.Snapshot();
      var uuid := store.NewUuid();
      if Valid(before) {
        NotYetIssued(before, uuid);
      }
      code := RideCode(commuterId, routeId, timestamp, uuid);
    }

    /** `addJourneyToHistory`: records the ticket's journey along the route. */
    method AddJourneyToHistory(commuterId: int, ticket: Ticket, route: Route)
      modifies store
      ensures store.Snapshot() == Ledger.AddJourneyToHistory(old(store.Snapshot()), commuterId, ticket, route)
    {
      var saved := store.SaveNewHistory(TravelHistory(0, commuterId, ticket.ticketId, ticket.bookingDateTime,
                                                      route.startStationName, route.endStationName, ticket.fare));
    }

    /** `bookTicket` for the authenticated user `username`, at instant `now`. */
    method BookTicket(username: string, request: BookTicketRequest, now: Timestamp)
      returns (r: Exceptional<Option<Ticket>>)
      modifies store
      ensures (r, store.Snapshot()) == Ledger.BookTicket(old(store.Snapshot()), username, request, now)
    {
      var before := store.Snapshot();
      if username !in store.users {
        return Thrown(IllegalState("Authenticated user not found"));
      }
      var user := store.users[username];
      if !user.Commuter? {
        return Normal(None);
      }

      var route: Route;
      match Ledger.FindMatchingRoute(store.routes, request.startStationName, request.endStationName, request.distance) {
        case Thrown(f) =>
          return Thrown(f);
        case Normal(Some(existing)) =>
          route := existing;
        case Normal(None) =>
          route := store.SaveNewRoute(Route(0, request.startStationName, request.endStationName, request.distance));
      }
      assert Ledger.ResolveRoute(before, request) == Normal((route, store.Snapshot()));

      var fare := CalculateFare(route);
      var paid := ProcessMockPayment(user, fare, request.paymentMethod);
      if paid.Thrown? {
        store.Restore(before);
        return Thrown(paid.failure);
      }
      if !paid.value {
        var uuid := store.NewUuid();
        var failed := SavePaymentRecord(None, fare, request.paymentMethod, Failed, MockFail(uuid), now);
        store.Restore(before);
        return Thrown(IllegalState("Insufficient wallet balance."));
      }

      var qrCodeData := GenerateQRCodeData(user.userId, route.routeId, now);
      var savedTicket := store.SaveNewTicket(Ticket(0, user.userId, route.routeId, fare, now, request.ticketType,
                                                    qrCodeData, Booked));
      var uuid := store.NewUuid();
      var paymentRecord := SavePaymentRecord(Some(savedTicket.ticketId), fare, request.paymentMethod, Success,
                                             MockTxn(uuid), now);
      AddJourneyToHistory(user.userId, savedTicket, route);
      r := Normal(Some(savedTicket));
    }

    /** `cancelTicket(ticketId, username)`. */
    method CancelTicket(ticketId: int, username: string) returns (r: Exceptional<bool>)
      modifies store
      ensures (r, store.Snapshot()) == Ledger.CancelTicket(old(store.Snapshot()), ticketId, username)
    {
      if ticketId !in store.tickets {
        return Normal(false);
      }
      var ticket := store.tickets[ticketId];
      if username !in store.users || store.users[username].userId != ticket.commuterId {
        return Normal(false);
      }
      var user := store.users[username];
      if ticket.status != Booked {
        return Normal(false);
      }

      var k := store.FindPaymentByTicketId(ticketId);
      if k.Some? {
        var payment := store.payments[k.value];
        if !user.Commuter? {
          return Thrown(ClassCast);
        }
        if IsWallet(payment.paymentMethod) {
          if user.walletBalance.None? {
            return Thrown(NullPointer);
          }
          store.SaveUser(user.(walletBalance := Some(user.walletBalance.value + payment.amount)));
        }
        store.SavePayment(k.value, payment.(status := Refunded));
      }
      store.SaveTicket(ticket.(status := Cancelled));
      r := Normal(true);
    }
  }
}
