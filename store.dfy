/**
 * The persistent state the services work on: the station, route, user,
 * ticket, payment and travel-history tables, plus the source of generated
 * identifiers and UUIDs. `Db` is a snapshot of every table; `Repositories`
 * is the mutable store the service classes share, whose save operations
 * are specified by the pure `Db` operations below.
 */
module Store {
  import opened Wrappers
  import opened Entities

  /** A snapshot of every table; `nextId` is the next identifier or UUID handed out. */
  datatype Db = Db(
    stations: seq<Station>,
    routes: seq<Route>,
    users: map<string, User>,
    tickets: map<int, Ticket>,
    payments: seq<Payment>,
    history: seq<TravelHistory>,
    nextId: nat)

  /** `UUID.randomUUID()`: a value never handed out before. */
  function FreshUuid(db: Db): (nat, Db) {
    (db.nextId, db.(nextId := db.nextId + 1))
  }

  /** `routeRepository.save` of a new route: it receives a generated id. */
  function InsertRoute(db: Db, r: Route): (Route, Db) {
    var saved := r.(routeId := db.nextId);
    (saved, db.(routes := db.routes + [saved], nextId := db.nextId + 1))
  }

  /** `userRepository.save`: the record stored under the user's name is replaced. */
  function PutUser(db: Db, u: User): Db {
    db.(users := db.users[u.username := u])
  }

  /** `ticketRepository.save` of a new ticket: it receives a generated id. */
  function InsertTicket(db: Db, t: Ticket): (Ticket, Db) {
    var saved := t.(ticketId := db.nextId);
    (saved, db.(tickets := db.tickets[db.nextId := saved], nextId := db.nextId + 1))
  }

  /** `ticketRepository.save` of a ticket already stored. */
  function PutTicket(db: Db, t: Ticket): Db {
    db.(tickets := db.tickets[t.ticketId := t])
  }

  /** `paymentRepository.save` of a new payment: it receives a generated id. */
  function InsertPayment(db: Db, p: Payment): (Payment, Db) {
    var saved := p.(paymentId := db.nextId);
    (saved, db.(payments := db.payments + [saved], nextId := db.nextId + 1))
  }

  /** `paymentRepository.save` of the payment stored at row `k`. */
  function PutPayment(db: Db, k: nat, p: Payment): Db
    requires k < |db.payments|
  {
    db.(payments := db.payments[k := p])
  }

  /** `travelHistoryRepository.save` of a new entry: it receives a generated id. */
  function InsertHistory(db: Db, h: TravelHistory): (TravelHistory, Db) {
    var saved := h.(historyId := db.nextId);
    (saved, db.(history := db.history + [saved], nextId := db.nextId + 1))
  }

  /**
   * `paymentRepository.findByTicketId`: the first payment row linked to the
   * ticket, if any.
   */
  function PaymentIndex(payments: seq<Payment>, ticketId: int): (k: Option<nat>)
    ensures k.Some? ==> k.value < |payments| && payments[k.value].ticketId == Some(ticketId)
    ensures k.Some? ==> forall j :: 0 <= j < k.value ==> payments[j].ticketId != Some(ticketId)
    ensures k.None? <==> forall j :: 0 <= j < |payments| ==> payments[j].ticketId != Some(ticketId)
    decreases |payments|
  {
    if payments == [] then None
    else if payments[0].ticketId == Some(ticketId) then Some(0)
    else
      match PaymentIndex(payments[1..], ticketId)
      case None => None
      case Some(k) => Some(k + 1)
  }

  /** Users are stored under their own user names. */
  ghost predicate UsersKeyed(db: Db) {
    forall name :: name in db.users ==> db.users[name].username == name
  }

  /** Tickets are stored under their own ids, all of them already handed out. */
  ghost predicate TicketsKeyed(db: Db) {
    forall id :: id in db.tickets ==> db.tickets[id].ticketId == id && 0 <= id < db.nextId
  }

  /** Every stored payment belongs to a stored ticket (the column is NOT NULL). */
  ghost predicate PaymentsLinked(db: Db) {
    forall k :: 0 <= k < |db.payments| ==>
      db.payments[k].ticketId.Some? && db.payments[k].ticketId.value in db.tickets
  }

  /** At most one payment per ticket (the column is UNIQUE). */
  ghost predicate PaymentsUnique(db: Db) {
    forall j, k :: 0 <= j < k < |db.payments| ==> db.payments[j].ticketId != db.payments[k].ticketId
  }

  /** Every travel-history entry belongs to a stored ticket. */
  ghost predicate HistoryLinked(db: Db) {
    forall k :: 0 <= k < |db.history| ==> db.history[k].ticketId in db.tickets
  }

  /**
   * Every generated identifier and UUID already stored was handed out
   * before `nextId`: route, payment and history ids, ride-code UUIDs and
   * transaction UUIDs.
   */
  ghost predicate IdsIssued(db: Db) {
    (forall k :: 0 <= k < |db.routes| ==> db.routes[k].routeId < db.nextId) &&
    (forall id :: id in db.tickets ==> db.tickets[id].qrCodeData.uuid < db.nextId) &&
    (forall k :: 0 <= k < |db.payments| ==>
       db.payments[k].paymentId < db.nextId && db.payments[k].transactionId.uuid < db.nextId) &&
    (forall k :: 0 <= k < |db.history| ==> db.history[k].historyId < db.nextId)
  }

  /** The integrity constraints of the tables. */
  ghost predicate Valid(db: Db) {
    UsersKeyed(db) && TicketsKeyed(db) && PaymentsLinked(db) && PaymentsUnique(db) && HistoryLinked(db) &&
    IdsIssued(db)
  }

  /**
   * `id` is used by no stored row: no ticket, route, payment or history
   * entry has it as its id, and no ride code or transaction reference has
   * it as its UUID.
   */
  ghost predicate Unused(db: Db, id: int) {
    id !in db.tickets &&
    (forall k :: 0 <= k < |db.routes| ==> db.routes[k].routeId != id) &&
    (forall t :: t in db.tickets ==> db.tickets[t].qrCodeData.uuid != id) &&
    (forall k :: 0 <= k < |db.payments| ==>
       db.payments[k].paymentId != id && db.payments[k].transactionId.uuid != id) &&
    (forall k :: 0 <= k < |db.history| ==> db.history[k].historyId != id)
  }

  /** Under the integrity constraints, every identifier from `nextId` on is still unused. */
  lemma NotYetIssued(db: Db, id: int)
    requires Valid(db) && id >= db.nextId
    ensures Unused(db, id)
  {
  }

  /**
   * Every generated identifier is fresh: a UUID, or the id a new route,
   * ticket, payment or history entry receives, is used by no stored row.
   * Drawing a UUID or saving a new route keeps the integrity constraints.
   */
  lemma GeneratedIdsUnused(db: Db, r: Route, t: Ticket, p: Payment, h: TravelHistory)
    requires Valid(db)
    ensures Unused(db, FreshUuid(db).0) && Valid(FreshUuid(db).1)
    ensures Unused(db, InsertRoute(db, r).0.routeId) && Valid(InsertRoute(db, r).1)
    ensures Unused(db, InsertTicket(db, t).0.ticketId)
    ensures Unused(db, InsertPayment(db, p).0.paymentId)
    ensures Unused(db, InsertHistory(db, h).0.historyId)
  {
    NotYetIssued(db, db.nextId);
    assert forall k :: 0 <= k < |db.routes| ==> InsertRoute(db, r).1.routes[k] == db.routes[k];
  }

  /** The tables, updated in place by the services' save calls. */
  class Repositories {
    var stations: seq<Station>
    var routes: seq<Route>
    var users: map<string, User>
    var tickets: map<int, Ticket>
    var payments: seq<Payment>
    var history: seq<TravelHistory>
    var nextId: nat

    /** The current contents of every table. */
    function Snapshot(): Db
      reads this
    {
      Db(stations, routes, users, tickets, payments, history, nextId)
    }

    constructor (db: Db)
      ensures Snapshot() == db
    {
      stations, routes, users, tickets := db.stations, db.routes, db.users, db.tickets;
      payments, history, nextId := db.payments, db.history, db.nextId;
    }

    /** Puts every table back as it was: the rollback of a failed transaction. */
    method Restore(db: Db)
      modifies this
      ensures Snapshot() == db
    {
      stations, routes, users, tickets := db.stations, db.routes, db.users, db.tickets;
      payments, history, nextId := db.payments, db.history, db.nextId;
    }

    method NewUuid() returns (uuid: nat)
      modifies this
      ensures (uuid, Snapshot()) == FreshUuid(old(Snapshot()))
    {
      uuid := nextId;
      nextId := nextId + 1;
    }

    method SaveNewRoute(r: Route) returns (saved: Route)
      modifies this
      ensures (saved, Snapshot()) == InsertRoute(old(Snapshot()), r)
    {
      saved := r.(routeId := nextId);
      routes := routes + [saved];
      nextId := nextId + 1;
    }

    method SaveUser(u: User)
      modifies this
      ensures Snapshot() == PutUser(old(Snapshot()), u)
    {
      users := users[u.username := u];
    }

    method SaveNewTicket(t: Ticket) returns (saved: Ticket)
      modifies this
      ensures (saved, Snapshot()) == InsertTicket(old(Snapshot()), t)
    {
      saved := t.(ticketId := nextId);
      tickets := tickets[nextId := saved];
      nextId := nextId + 1;
    }

    method SaveTicket(t: Ticket)
      modifies this
      ensures Snapshot() == PutTicket(old(Snapshot()), t)
    {
      tickets := tickets[t.ticketId := t];
    }

    method SaveNewPayment(p: Payment) returns (saved: Payment)
      modifies this
      ensures (saved, Snapshot()) == InsertPayment(old(Snapshot()), p)
    {
      saved := p.(paymentId := nextId);
      payments := payments + [saved];
      nextId := nextId + 1;
    }

    method SavePayment(k: nat, p: Payment)
      requires k < |payments|
      modifies this
      ensures Snapshot() == PutPayment(old(Snapshot()), k, p)
    {
      payments := payments[k := p];
    }

    method SaveNewHistory(h: TravelHistory) returns (saved: TravelHistory)
      modifies this
      ensures (saved, Snapshot()) == InsertHistory(old(Snapshot()), h)
    {
      saved := h.(historyId := nextId);
      history := history + [saved];
      nextId := nextId + 1;
    }

    /** `paymentRepository.findByTicketId`, as a scan of the payment table. */
    method FindPaymentByTicketId(ticketId: int) returns (k: Option<nat>)
      ensures k == PaymentIndex(payments, ticketId)
    {
      var i := 0;
      while i < |payments|
        invariant 0 <= i <= |payments|
        invariant forall j :: 0 <= j < i ==> payments[j].ticketId != Some(ticketId)
      {
        if payments[i].ticketId == Some(ticketId) {
          k := Some(i);
          FirstMatchIsIndex(payments, ticketId, i);
          return;
        }
        i := i + 1;
      }
      k := None;
    }
  }

  /** The first row linked to a ticket is the one `PaymentIndex` names. */
  lemma {:induction false} FirstMatchIsIndex(payments: seq<Payment>, ticketId: int, i: nat)
    requires i < |payments| && payments[i].ticketId == Some(ticketId)
    requires forall j :: 0 <= j < i ==> payments[j].ticketId != Some(ticketId)
    ensures PaymentIndex(payments, ticketId) == Some(i)
  {
    var k := PaymentIndex(payments, ticketId);
    assert k.Some?;
  }
}
