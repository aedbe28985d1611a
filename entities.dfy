/**
 * The records of the metro network and of the ticket ledger. Monetary
 * amounts and distances are `real` (IEEE rounding is not modelled); Java's
 * nullable `Double` and `Long` fields are `Option`s.
 */
module Entities {
  import opened Wrappers

  /** An instant as produced by `LocalDateTime.now()`, kept abstract. */
  type Timestamp = int

  datatype Station = Station(stationId: int, name: string)

  /** A persisted or synthesized directed connection between two stations. */
  datatype Route = Route(routeId: int, startStationName: string, endStationName: string, distance: Option<real>)

  /** An outgoing connection of a graph node; the destination is named, not owned. */
  datatype Edge = Edge(destination: string, weight: real)

  /** A graph node: a station name and its outgoing edges in insertion order. */
  datatype StationNode = StationNode(name: string, neighbors: seq<Edge>)

  datatype TicketStatus = Booked | Used | Cancelled | Expired

  datatype PaymentStatus = Pending | Success | Failed | Refunded

  /** The ride-code payload: commuter, route, booking instant and a fresh UUID. */
  datatype RideCode = RideCode(commuterId: int, routeId: int, issuedAt: Timestamp, uuid: nat)

  /** The internal transaction reference: "MOCK_TXN_" or "MOCK_FAIL_" followed by a fresh UUID. */
  datatype TransactionRef = MockTxn(uuid: nat) | MockFail(uuid: nat)

  datatype Ticket = Ticket(
    ticketId: int,
    commuterId: int,
    routeId: int,
    fare: real,
    bookingDateTime: Timestamp,
    ticketType: string,
    qrCodeData: RideCode,
    status: TicketStatus)

  /** A payment; only a failed attempt that never produced a ticket has no ticket id. */
  datatype Payment = Payment(
    paymentId: int,
    ticketId: Option<int>,
    amount: real,
    paymentDateTime: Timestamp,
    paymentMethod: string,
    status: PaymentStatus,
    transactionId: TransactionRef)

  datatype TravelHistory = TravelHistory(
    historyId: int,
    commuterId: int,
    ticketId: int,
    journeyDateTime: Timestamp,
    startStationName: string,
    endStationName: string,
    farePaid: real)

  /** A user account: either a commuter, who owns a wallet, or an administrator. */
  datatype User =
    | Commuter(userId: int, username: string, walletBalance: Option<real>, phoneNumber: string, membershipType: string)
    | Admin(userId: int, username: string, adminLevel: int, department: string)

  /** The booking request a commuter submits. */
  datatype BookTicketRequest = BookTicketRequest(
    startStationName: string,
    endStationName: string,
    distance: Option<real>,
    ticketType: string,
    paymentMethod: string)

  /** ASCII upper-casing of one character, as `Character.toUpperCase` does on ASCII letters. */
  function UpperAscii(c: char): char {
    if 'a' <= c <= 'z' then (c as int - 32) as char else c
  }

  /** `String.equalsIgnoreCase`, restricted to ASCII case mapping. */
  predicate EqualsIgnoreCase(a: string, b: string) {
    |a| == |b| && forall i :: 0 <= i < |a| ==> UpperAscii(a[i]) == UpperAscii(b[i])
  }

  /** Whether a payment method names the internal wallet. */
  predicate IsWallet(paymentMethod: string) {
    EqualsIgnoreCase(paymentMethod, "WALLET")
  }
}
