/** The records of the Owner service (tables, reservations, their group
    members and payments), their status enums with the names they are stored
    under, and the failures its operations report. Times are whole seconds,
    money is whole cents. */
module Domain {
  import opened Common

  // ---------------------------------------------------------------------------
  // Status enums
  // ---------------------------------------------------------------------------

  datatype ReservationStatus =
    | Pending | Confirmed | CheckedIn | Completed | Cancelled | NoShow | TimeoutWarning

  datatype TableStatus = Available | Reserved | Occupied | Cleaning

  datatype PaymentStatus = PaymentPending | PaymentCompleted | PaymentFailed | PaymentRefunded

  datatype PaymentMethod = Cash | CreditCard | PayPal

  /** The enum constant name a reservation status is stored and sent under. */
  function ReservationStatusName(s: ReservationStatus): string {
    match s
    case Pending => "PENDING"
    case Confirmed => "CONFIRMED"
    case CheckedIn => "CHECKED_IN"
    case Completed => "COMPLETED"
    case Cancelled => "CANCELLED"
    case NoShow => "NO_SHOW"
    case TimeoutWarning => "TIMEOUT_WARNING"
  }

  /** `ReservationStatus.valueOf(name)`: the constant with exactly this name. */
  function ParseReservationStatus(name: string): (r: Option<ReservationStatus>)
    ensures r.Some? ==> ReservationStatusName(r.value) == name
  {
    if name == "PENDING" then Some(Pending)
    else if name == "CONFIRMED" then Some(Confirmed)
    else if name == "CHECKED_IN" then Some(CheckedIn)
    else if name == "COMPLETED" then Some(Completed)
    else if name == "CANCELLED" then Some(Cancelled)
    else if name == "NO_SHOW" then Some(NoShow)
    else if name == "TIMEOUT_WARNING" then Some(TimeoutWarning)
    else None
  }

  /** Every status is found again under its own name. */
  lemma {:induction false} ParseReservationStatusName(s: ReservationStatus)
    ensures ParseReservationStatus(ReservationStatusName(s)) == Some(s)
  {
  }

  function TableStatusName(s: TableStatus): string {
    match s
    case Available => "AVAILABLE"
    case Reserved => "RESERVED"
    case Occupied => "OCCUPIED"
    case Cleaning => "CLEANING"
  }

  /** ASCII upper-casing, as `String.toUpperCase` does on ASCII text. */
  function ToUpper(s: string): (r: string)
    ensures |r| == |s|
    ensures forall i :: 0 <= i < |s| ==> ('a' <= s[i] <= 'z' ==> r[i] as int == s[i] as int - 32)
    ensures forall i :: 0 <= i < |s| ==> (!('a' <= s[i] <= 'z') ==> r[i] == s[i])
  {
    if s == [] then []
    else
      var c := s[0];
      var u := if 'a' <= c <= 'z' then (c as int - 32) as char else c;
      [u] + ToUpper(s[1..])
  }

  /** Text without lower-case letters is its own upper-case form. */
  lemma {:induction false} ToUpperOfUpper(s: string)
    requires forall i :: 0 <= i < |s| ==> !('a' <= s[i] <= 'z')
    ensures ToUpper(s) == s
  {
    var r := ToUpper(s);
    assert forall i :: 0 <= i < |s| ==> r[i] == s[i];
  }

  // ---------------------------------------------------------------------------
  // Records
  // ---------------------------------------------------------------------------

  /** A table of a restaurant; `currentReservationId` is the reservation it is
      bound to, if any. */
  datatype Table = Table(
    id: int,
    restaurantId: int,
    tableNumber: string,
    capacity: int,
    status: TableStatus,
    currentReservationId: Option<int>)

  /** A guest of a group reservation, with their own check-in token. */
  datatype GroupMember = GroupMember(
    guestName: string,
    guestEmail: string,
    qrCode: Option<string>,
    hasCheckedIn: bool)

  /** A reservation; `cancellationFee` is in cents. */
  datatype Reservation = Reservation(
    id: int,
    customerId: int,
    restaurantId: int,
    tableId: Option<int>,
    reservationDateTime: int,
    durationMinutes: int,
    numberOfGuests: int,
    status: ReservationStatus,
    isGroupReservation: bool,
    phoneNumber: Option<string>,
    qrCode: Option<string>,
    cancellationFee: int,
    checkedInAt: Option<int>,
    groupMembers: seq<GroupMember>)

  /** A payment for a reservation; amounts are in cents. */
  datatype Payment = Payment(
    id: int,
    reservationId: int,
    amount: int,
    paymentMethod: PaymentMethod,
    paymentStatus: PaymentStatus,
    transactionId: Option<string>,
    paidAt: Option<int>,
    refundAmount: int)

  const DefaultDurationMinutes: int := 120

  /** The Table constructor taking restaurant, number and capacity: a new
      table is AVAILABLE and bound to no reservation. */
  function NewTable(id: int, restaurantId: int, tableNumber: string, capacity: int): (t: Table)
    ensures t.status == Available && t.currentReservationId == None
    ensures t.restaurantId == restaurantId && t.tableNumber == tableNumber && t.capacity == capacity
  {
    Table(id, restaurantId, tableNumber, capacity, Available, None)
  }

  /** The GroupMember constructor taking name and e-mail: no token yet, not
      checked in. */
  function NewGroupMember(guestName: string, guestEmail: string): (m: GroupMember)
    ensures m.guestName == guestName && m.guestEmail == guestEmail
    ensures m.qrCode == None && !m.hasCheckedIn
  {
    GroupMember(guestName, guestEmail, None, false)
  }

  /** A reservation built with the no-argument constructor and then given an
      id: every field at its declared default. */
  function BlankReservation(id: int): (r: Reservation)
    ensures r.id == id && r.durationMinutes == 120 && r.status == Pending
    ensures !r.isGroupReservation && r.cancellationFee == 0 && r.groupMembers == []
    ensures r.tableId == None && r.checkedInAt == None && r.qrCode == None
  {
    Reservation(id, 0, 0, None, 0, DefaultDurationMinutes, 0, Pending, false, None, None, 0, None, [])
  }

  /** The Payment constructor taking reservation, amount and method: PENDING,
      nothing refunded, not yet paid, no transaction id. */
  function NewPayment(id: int, reservationId: int, amount: int, payMethod: PaymentMethod): (p: Payment)
    ensures p.paymentStatus == PaymentPending && p.refundAmount == 0
    ensures p.paidAt == None && p.transactionId == None
    ensures p.reservationId == reservationId && p.amount == amount && p.paymentMethod == payMethod
  {
    Payment(id, reservationId, amount, payMethod, PaymentPending, None, None, 0)
  }

  // ---------------------------------------------------------------------------
  // Failures
  // ---------------------------------------------------------------------------

  /** The runtime exceptions the Owner service raises, by cause. */
  datatype Failure =
    | ReservationNotFound(reservationId: int)
    | TableNotFound(tableId: int)
    | CannotCancel(cancelStatus: ReservationStatus)
    | CannotCheckIn(checkInStatus: ReservationStatus)
    | NoTableAssigned(unassigned: int)
    | CannotComplete(completeStatus: ReservationStatus)
    | TableAlreadyAssigned(tableNumber: string, holder: int)
    | TableIdRequired
    | InvalidReservationStatus(statusName: string)
    | PaymentAlreadyCompleted
    | PaymentNotFound(paymentId: int)
    | NoPaymentForReservation(unpaidReservationId: int)
    | NonUniqueResult
    | CannotRefund(paymentStatus: PaymentStatus)
    | RefundExceedsAmount
    | PaymentInterrupted(failed: Payment)
    | PayPalPaymentFailed(declined: Payment)
    | RemoteCallFailed
    | OrderNotFound(orderId: int)
    | CheckinRejected(rejection: string)

  /** The outcome of an operation that may throw. */
  datatype Result<T> = Ok(value: T) | Err(error: Failure)
}
