/** The Owner service's payment recorder: cash payments taken by the waiter,
    two simulated online methods, refunds, and the dashboard statistics.
    Amounts are in cents. The simulated processing delay can be
    interrupted, and the simulated PayPal call can decline; both outcomes,
    and the random transaction ids, are inputs of the model. Each operation
    runs in one transaction: when it ends in an error nothing it wrote is
    kept. */
module Payments {
  import opened Common
  import opened Domain
  import opened Stores
  import opened Reservations

  // ---------------------------------------------------------------------------
  // Queries
  // ---------------------------------------------------------------------------

  /** The ids of the payments recorded for a reservation. */
  function PaymentIdsFor(rows: map<int, Payment>, reservationId: int): set<int> {
    set id | id in rows && rows[id].reservationId == reservationId
  }

  /** `findByReservationId`: no payment, the one payment, or a failure when
      the reservation has several payments (a single result was asked for). */
  function FindByReservationId(rows: map<int, Payment>, reservationId: int): (r: Result<Option<Payment>>)
    ensures r == Ok(None) <==> forall id :: id in rows ==> rows[id].reservationId != reservationId
    ensures r.Err? <==> exists i, j :: i in rows && j in rows && i != j
                                       && rows[i].reservationId == reservationId && rows[j].reservationId == reservationId
    ensures r.Err? ==> r.error == NonUniqueResult
    ensures r.Ok? && r.value.Some? ==>
              exists id :: id in rows && rows[id] == r.value.value
                           && forall k :: k in rows && rows[k].reservationId == reservationId ==> k == id
  {
    var ids := OrderBy(PaymentIdsFor(rows, reservationId), (id: int) => id);
    if |ids| == 0 then
      assert PaymentIdsFor(rows, reservationId) == {};
      assert forall id :: id in rows ==> rows[id].reservationId != reservationId by {
        forall id | id in rows ensures rows[id].reservationId != reservationId {
          assert id !in PaymentIdsFor(rows, reservationId);
        }
      }
      Ok(None)
    else if |ids| == 1 then
      assert ids[0] in PaymentIdsFor(rows, reservationId);
      assert forall k :: k in rows && rows[k].reservationId == reservationId ==> k == ids[0] by {
        forall k | k in rows && rows[k].reservationId == reservationId ensures k == ids[0] {
          assert k in PaymentIdsFor(rows, reservationId);
        }
      }
      Ok(Some(rows[ids[0]]))
    else
      assert ids[0] in PaymentIdsFor(rows, reservationId) && ids[1] in PaymentIdsFor(rows, reservationId);
      Err(NonUniqueResult)
  }

  /** `findByPaymentStatus`: every payment with that status, each once. */
  function FindByPaymentStatus(rows: map<int, Payment>, status: PaymentStatus): (r: seq<Payment>)
    ensures forall p :: p in r ==> p in rows.Values && p.paymentStatus == status
    ensures forall id :: id in rows && rows[id].paymentStatus == status ==> rows[id] in r
    ensures |r| == |set id | id in rows && rows[id].paymentStatus == status|
  {
    var keep, key := (p: Payment) => p.paymentStatus == status, (p: Payment) => 0;
    SelectCount(rows, keep, key, set id | id in rows && rows[id].paymentStatus == status);
    Select(rows, keep, key)
  }

  /** Whether the reservation counts as paid: its one payment is COMPLETED. */
  function IsReservationPaid(rows: map<int, Payment>, reservationId: int): (r: Result<bool>)
    ensures r.Err? <==> FindByReservationId(rows, reservationId).Err?
    ensures r == Ok(true) <==>
              exists id :: id in rows && rows[id].reservationId == reservationId && rows[id].paymentStatus == PaymentCompleted
                           && forall k :: k in rows && rows[k].reservationId == reservationId ==> k == id
  {
    match FindByReservationId(rows, reservationId)
    case Err(e) => Err(e)
    case Ok(existing) =>
      var paid := existing.Some? && existing.value.paymentStatus == PaymentCompleted;
      Ok(paid)
  }

  // ---------------------------------------------------------------------------
  // Statistics
  // ---------------------------------------------------------------------------

  const SecondsPerDay: int := 24 * 60 * 60

  /** Whether a payment was paid on the given day (days counted from the
      epoch). */
  predicate PaidOn(p: Payment, day: int) {
    p.paidAt.Some? && p.paidAt.value / SecondsPerDay == day
  }

  /** Sum of the amounts of the listed payments. */
  function SumAll(ps: seq<Payment>): (r: int)
    ensures (forall i :: 0 <= i < |ps| ==> ps[i].amount >= 0) ==> r >= 0
    decreases |ps|
  {
    if ps == [] then 0 else ps[0].amount + SumAll(ps[1..])
  }

  /** Sum of the amounts of the listed payments made with `m`. */
  function SumByMethod(ps: seq<Payment>, m: PaymentMethod): (r: int)
    ensures (forall i :: 0 <= i < |ps| ==> ps[i].amount >= 0) ==> 0 <= r <= SumAll(ps)
    decreases |ps|
  {
    if ps == [] then 0
    else (if ps[0].paymentMethod == m then ps[0].amount else 0) + SumByMethod(ps[1..], m)
  }

  /** Sum of the amounts of the listed payments paid on `day`. */
  function SumPaidOn(ps: seq<Payment>, day: int): int
    decreases |ps|
  {
    if ps == [] then 0
    else (if PaidOn(ps[0], day) then ps[0].amount else 0) + SumPaidOn(ps[1..], day)
  }

  /** Number of the listed payments paid on `day`. */
  function CountPaidOn(ps: seq<Payment>, day: int): int
    decreases |ps|
  {
    if ps == [] then 0
    else (if PaidOn(ps[0], day) then 1 else 0) + CountPaidOn(ps[1..], day)
  }

  datatype PaymentStats = PaymentStats(
    totalRevenue: int,
    todayRevenue: int,
    cashPayments: int,
    cardPayments: int,
    paymentCount: int,
    todayCount: int)

  /** The dashboard figures over the COMPLETED payments, `today` being the
      current day. */
  function GetPaymentStats(rows: map<int, Payment>, today: int): (s: PaymentStats)
    ensures s.paymentCount == |set id | id in rows && rows[id].paymentStatus == PaymentCompleted|
  {
    var completed := FindByPaymentStatus(rows, PaymentCompleted);
    PaymentStats(
      SumAll(completed),
      SumPaidOn(completed, today),
      SumByMethod(completed, Cash),
      SumByMethod(completed, CreditCard),
      |completed|,
      CountPaidOn(completed, today))
  }

  /** With non-negative amounts, the sums for two different methods add up to
      at most the total. */
  lemma {:induction false} MethodSumsBounded(ps: seq<Payment>, m1: PaymentMethod, m2: PaymentMethod)
    requires m1 != m2
    requires forall k :: 0 <= k < |ps| ==> ps[k].amount >= 0
    ensures 0 <= SumByMethod(ps, m1) && 0 <= SumByMethod(ps, m2)
    ensures SumByMethod(ps, m1) + SumByMethod(ps, m2) <= SumAll(ps)
    decreases |ps|
  {
    if ps != [] {
      assert forall k :: 0 <= k < |ps[1..]| ==> ps[1..][k] == ps[k + 1];
      MethodSumsBounded(ps[1..], m1, m2);
    }
  }

  /** With non-negative amounts, one day's revenue lies between zero and the
      total, and one day's count between zero and the number of payments. */
  lemma {:induction false} DaySumsBounded(ps: seq<Payment>, day: int)
    requires forall k :: 0 <= k < |ps| ==> ps[k].amount >= 0
    ensures 0 <= SumPaidOn(ps, day) <= SumAll(ps)
    ensures 0 <= CountPaidOn(ps, day) <= |ps|
    decreases |ps|
  {
    if ps != [] {
      assert forall k :: 0 <= k < |ps[1..]| ==> ps[1..][k] == ps[k + 1];
      DaySumsBounded(ps[1..], day);
    }
  }

  /** Every payment listed by status comes from the rows. */
  lemma {:induction false} ListedAmountsNonNegative(rows: map<int, Payment>, status: PaymentStatus)
    requires forall id :: id in rows ==> rows[id].amount >= 0
    ensures var ps := FindByPaymentStatus(rows, status);
            forall k :: 0 <= k < |ps| ==> ps[k].amount >= 0
  {
    var ps := FindByPaymentStatus(rows, status);
    forall k | 0 <= k < |ps|
      ensures ps[k].amount >= 0
    {
      assert ps[k] in ps;
      StoredAmountNonNegative(rows, ps[k]);
    }
  }

  lemma {:induction false} StoredAmountNonNegative(rows: map<int, Payment>, p: Payment)
    requires forall id :: id in rows ==> rows[id].amount >= 0
    requires p in rows.Values
    ensures p.amount >= 0
  {
    if forall id :: id in rows ==> rows[id] != p {
      assert false;
    }
    var id :| id in rows && rows[id] == p;
  }

  /** The figures are consistent: cash plus card and today's revenue are at
      most the total, and today's count is at most the payment count. */
  lemma {:induction false} StatsConsistent(rows: map<int, Payment>, today: int)
    requires forall id :: id in rows ==> rows[id].amount >= 0
    ensures var s := GetPaymentStats(rows, today);
            0 <= s.cashPayments && 0 <= s.cardPayments && s.cashPayments + s.cardPayments <= s.totalRevenue
            && 0 <= s.todayRevenue <= s.totalRevenue
            && 0 <= s.todayCount <= s.paymentCount
  {
    var completed := FindByPaymentStatus(rows, PaymentCompleted);
    ListedAmountsNonNegative(rows, PaymentCompleted);
    MethodSumsBounded(completed, Cash, CreditCard);
    DaySumsBounded(completed, today);
  }

  /** The total amount of the rows stored under `ids`, summed over the set. */
  ghost function RevenueOver(rows: map<int, Payment>, ids: set<int>): int
    requires ids <= rows.Keys
    decreases |ids|
  {
    if ids == {} then 0
    else
      NonEmptyHasMember(ids);
      var x :| x in ids;
      rows[x].amount + RevenueOver(rows, ids - {x})
  }

  lemma {:induction false} NonEmptyHasMember(ids: set<int>)
    requires ids != {}
    ensures exists x :: x in ids
  {
    if forall x :: x !in ids {
      assert false;
    }
  }

  /** Any row of the set can be taken out first. */
  lemma {:induction false} RevenueOverSplit(rows: map<int, Payment>, ids: set<int>, y: int)
    requires ids <= rows.Keys && y in ids
    ensures RevenueOver(rows, ids) == rows[y].amount + RevenueOver(rows, ids - {y})
    decreases |ids|
  {
    var x :| x in ids && RevenueOver(rows, ids) == rows[x].amount + RevenueOver(rows, ids - {x});
    if x != y {
      RevenueOverSplit(rows, ids - {x}, y);
      RevenueOverSplit(rows, ids - {y}, x);
      assert ids - {x} - {y} == ids - {y} - {x};
    }
  }

  /** Summing the rows of an enumeration that lists each id once gives the
      sum over the set of those ids. */
  lemma {:induction false} SumAllOfPick(rows: map<int, Payment>, order: seq<int>, ids: set<int>)
    requires forall k :: 0 <= k < |order| ==> order[k] in rows
    requires forall i, j :: 0 <= i < j < |order| ==> order[i] != order[j]
    requires forall x :: x in order <==> x in ids
    ensures ids <= rows.Keys
    ensures SumAll(Pick(rows, order)) == RevenueOver(rows, ids)
    decreases |order|
  {
    if order == [] {
      assert forall x :: x in ids ==> x in order;
    } else {
      var rest := order[1..];
      forall x | x in rest
        ensures x in ids - {order[0]}
      {
        var k :| 0 <= k < |rest| && rest[k] == x;
        assert order[k + 1] == x;
      }
      forall x | x in ids - {order[0]}
        ensures x in rest
      {
        var k :| 0 <= k < |order| && order[k] == x;
        assert rest[k - 1] == x;
      }
      SumAllOfPick(rows, rest, ids - {order[0]});
      assert order[0] in order;
      RevenueOverSplit(rows, ids, order[0]);
      assert Pick(rows, order)[1..] == Pick(rows, rest);
    }
  }

  /** The total is the sum over exactly the COMPLETED rows, and the count is
      their number. */
  lemma {:induction false} StatsCoverCompleted(rows: map<int, Payment>, today: int)
    ensures var s := GetPaymentStats(rows, today);
            var completed := set id | id in rows && rows[id].paymentStatus == PaymentCompleted;
            s.paymentCount == |completed| && s.totalRevenue == RevenueOver(rows, completed)
  {
    var keep, key := (p: Payment) => p.paymentStatus == PaymentCompleted, (p: Payment) => 0;
    var order := SelectEnumerates(rows, keep, key);
    var completed := set id | id in rows && rows[id].paymentStatus == PaymentCompleted;
    SumAllOfPick(rows, order, completed);
  }

  // ---------------------------------------------------------------------------
  // The service
  // ---------------------------------------------------------------------------

  /** A payment recorded as COMPLETED at `now` with the given transaction id. */
  function CompletedAt(p: Payment, transactionId: string, now: int): (q: Payment)
    ensures q.paymentStatus == PaymentCompleted && q.paidAt == Some(now) && q.transactionId == Some(transactionId)
    ensures q.id == p.id && q.reservationId == p.reservationId && q.amount == p.amount && q.paymentMethod == p.paymentMethod
  {
    p.(paymentStatus := PaymentCompleted, paidAt := Some(now), transactionId := Some(transactionId))
  }

  class PaymentService {
    const payments: PaymentRepository
    const resService: ResService

    ghost predicate Valid()
      reads this, payments
    {
      payments.Valid()
    }

    constructor(payments: PaymentRepository, resService: ResService)
      requires payments.Valid()
      ensures this.payments == payments && this.resService == resService && Valid()
    {
      this.payments := payments;
      this.resService := resService;
    }

    /** The guard every payment starts with: the reservation exists and has
        no COMPLETED payment. */
    method CheckPayable(reservationId: int) returns (r: Result<()>)
      ensures reservationId !in resService.reservations.rows ==> r == Err(ReservationNotFound(reservationId))
      ensures reservationId in resService.reservations.rows ==>
                match FindByReservationId(payments.rows, reservationId)
                case Err(e) => r == Err(e)
                case Ok(existing) =>
                  if existing.Some? && existing.value.paymentStatus == PaymentCompleted
                  then r == Err(PaymentAlreadyCompleted) else r == Ok(())
    {
      var found := resService.GetReservationById(reservationId);
      if found.Err? {
        return Err(found.error);
      }
      var existing := FindByReservationId(payments.rows, reservationId);
      if existing.Err? {
        return Err(existing.error);
      }
      if existing.value.Some? && existing.value.value.paymentStatus == PaymentCompleted {
        return Err(PaymentAlreadyCompleted);
      }
      r := Ok(());
    }

    /** A cash payment, COMPLETED at once with transaction id "CASH_" and the
        current time in milliseconds. */
    method ProcessCashPayment(reservationId: int, amount: int, now: int, nowMillis: int) returns (r: Result<Payment>)
      requires Valid()
      modifies payments
      ensures Valid()
      ensures r.Err? ==> payments.rows == old(payments.rows) && payments.nextId == old(payments.nextId)
      ensures r.Ok? ==>
                r.value == CompletedAt(NewPayment(old(payments.nextId), reservationId, amount, Cash),
                                     "CASH_" + IntToString(nowMillis), now)
                && payments.rows == old(payments.rows)[r.value.id := r.value]
                && payments.nextId == old(payments.nextId) + 1
      ensures r.Ok? <==> reservationId in resService.reservations.rows
                         && IsReservationPaid(old(payments.rows), reservationId) == Ok(false)
    {
      var payable := CheckPayable(reservationId);
      if payable.Err? {
        return Err(payable.error);
      }
      var payment := NewPayment(payments.nextId, reservationId, amount, Cash);
      payment := payment.(paymentStatus := PaymentCompleted, paidAt := Some(now));
      payment := payment.(transactionId := Some("CASH_" + IntToString(nowMillis)));
      payments.rows := payments.rows[payment.id := payment];
      payments.nextId := payments.nextId + 1;
      r := Ok(payment);
    }

    /** The simulated card payment: saved PENDING, then, unless the delay is
        interrupted, COMPLETED with transaction id "CARD_" and a random UUID.
        An interruption marks the payment FAILED and raises an error, which
        rolls the transaction back. */
    method ProcessMockCreditCardPayment(reservationId: int, amount: int, uuid: string, interrupted: bool, now: int)
      returns (r: Result<Payment>)
      requires Valid()
      modifies payments
      ensures Valid()
      ensures r.Err? ==> payments.rows == old(payments.rows) && payments.nextId == old(payments.nextId)
      ensures r.Ok? <==> reservationId in resService.reservations.rows
                         && IsReservationPaid(old(payments.rows), reservationId) == Ok(false) && !interrupted
      ensures r.Ok? ==>
                r.value == CompletedAt(NewPayment(old(payments.nextId), reservationId, amount, CreditCard), "CARD_" + uuid, now)
                && payments.rows == old(payments.rows)[r.value.id := r.value]
                && payments.nextId == old(payments.nextId) + 1
      ensures reservationId in resService.reservations.rows
              && IsReservationPaid(old(payments.rows), reservationId) == Ok(false) && interrupted ==>
                r == Err(PaymentInterrupted(NewPayment(old(payments.nextId), reservationId, amount, CreditCard)
                                              .(paymentStatus := PaymentFailed)))
    {
      var payable := CheckPayable(reservationId);
      if payable.Err? {
        return Err(payable.error);
      }
      var payment := NewPayment(payments.nextId, reservationId, amount, CreditCard);
      payment := payment.(paymentStatus := PaymentPending);
      if interrupted {
        payment := payment.(paymentStatus := PaymentFailed);
        return Err(PaymentInterrupted(payment));
      }
      payment := payment.(paymentStatus := PaymentCompleted, paidAt := Some(now));
      payment := payment.(transactionId := Some("CARD_" + uuid));
      payments.rows := payments.rows[payment.id := payment];
      payments.nextId := payments.nextId + 1;
      r := Ok(payment);
    }

    /** The simulated PayPal payment: like the card payment, except that the
        provider may decline (one time in twenty): the payment is then FAILED
        with transaction id "FAILED_" and a random UUID, and an error is
        raised. */
    method ProcessMockPayPalPayment(reservationId: int, amount: int, uuid: string, declined: bool, interrupted: bool, now: int)
      returns (r: Result<Payment>)
      requires Valid()
      modifies payments
      ensures Valid()
      ensures r.Err? ==> payments.rows == old(payments.rows) && payments.nextId == old(payments.nextId)
      ensures r.Ok? <==> reservationId in resService.reservations.rows
                         && IsReservationPaid(old(payments.rows), reservationId) == Ok(false) && !interrupted && !declined
      ensures r.Ok? ==>
                r.value == CompletedAt(NewPayment(old(payments.nextId), reservationId, amount, PayPal), "PAYPAL_" + uuid, now)
                && payments.rows == old(payments.rows)[r.value.id := r.value]
                && payments.nextId == old(payments.nextId) + 1
      ensures reservationId in resService.reservations.rows
              && IsReservationPaid(old(payments.rows), reservationId) == Ok(false) && !interrupted && declined ==>
                r == Err(PayPalPaymentFailed(NewPayment(old(payments.nextId), reservationId, amount, PayPal)
                                               .(paymentStatus := PaymentFailed, transactionId := Some("FAILED_" + uuid))))
    {
      var payable := CheckPayable(reservationId);
      if payable.Err? {
        return Err(payable.error);
      }
      var payment := NewPayment(payments.nextId, reservationId, amount, PayPal);
      payment := payment.(paymentStatus := PaymentPending);
      if interrupted {
        payment := payment.(paymentStatus := PaymentFailed);
        return Err(PaymentInterrupted(payment));
      }
      if declined {
        payment := payment.(paymentStatus := PaymentFailed, transactionId := Some("FAILED_" + uuid));
        return Err(PayPalPaymentFailed(payment));
      }
      payment := payment.(paymentStatus := PaymentCompleted, paidAt := Some(now));
      payment := payment.(transactionId := Some("PAYPAL_" + uuid));
      payments.rows := payments.rows[payment.id := payment];
      payments.nextId := payments.nextId + 1;
      r := Ok(payment);
    }

    /** Refunds a COMPLETED payment by at most its amount; a refused refund
        changes nothing. */
    method RefundPayment(paymentId: int, refundAmount: int) returns (r: Result<Payment>)
      requires Valid()
      modifies payments
      ensures Valid() && payments.nextId == old(payments.nextId)
      ensures r.Err? ==> payments.rows == old(payments.rows)
      ensures paymentId !in old(payments.rows) ==> r == Err(PaymentNotFound(paymentId))
      ensures paymentId in old(payments.rows) ==>
                var p := old(payments.rows[paymentId]);
                (p.paymentStatus != PaymentCompleted ==> r == Err(CannotRefund(p.paymentStatus)))
                && (p.paymentStatus == PaymentCompleted && refundAmount > p.amount ==> r == Err(RefundExceedsAmount))
                && (p.paymentStatus == PaymentCompleted && refundAmount <= p.amount ==>
                      r == Ok(p.(refundAmount := refundAmount, paymentStatus := PaymentRefunded))
                      && payments.rows == old(payments.rows)[paymentId := r.value])
    {
      var found := GetPaymentById(paymentId);
      if found.Err? {
        return Err(found.error);
      }
      var payment := found.value;
      if payment.paymentStatus != PaymentCompleted {
        return Err(CannotRefund(payment.paymentStatus));
      }
      if refundAmount > payment.amount {
        return Err(RefundExceedsAmount);
      }
      payment := payment.(refundAmount := refundAmount, paymentStatus := PaymentRefunded);
      payments.rows := payments.rows[paymentId := payment];
      r := Ok(payment);
    }

    /** The reservation's one payment; none, or several, is an error. */
    method GetPaymentByReservationId(reservationId: int) returns (r: Result<Payment>)
      ensures match FindByReservationId(payments.rows, reservationId)
              case Err(e) => r == Err(e)
              case Ok(None) => r == Err(NoPaymentForReservation(reservationId))
              case Ok(Some(p)) => r == Ok(p)
    {
      var found := FindByReservationId(payments.rows, reservationId);
      if found.Err? {
        return Err(found.error);
      }
      if found.value.None? {
        return Err(NoPaymentForReservation(reservationId));
      }
      r := Ok(found.value.value);
    }

    /** Fails for an unknown id. */
    method GetPaymentById(paymentId: int) returns (r: Result<Payment>)
      ensures r.Ok? <==> paymentId in payments.rows
      ensures r.Ok? ==> r.value == payments.rows[paymentId]
      ensures r.Err? ==> r.error == PaymentNotFound(paymentId)
    {
      if paymentId in payments.rows {
        r := Ok(payments.rows[paymentId]);
      } else {
        r := Err(PaymentNotFound(paymentId));
      }
    }
  }

  /** A refunded payment can be neither refunded again nor paid over: the
      reservation then counts as unpaid, so a new payment is accepted. */
  lemma {:induction false} RefundedIsUnpaid(rows: map<int, Payment>, paymentId: int, refundAmount: int)
    requires paymentId in rows && rows[paymentId].paymentStatus == PaymentCompleted
    requires forall k :: k in rows && rows[k].reservationId == rows[paymentId].reservationId ==> k == paymentId
    ensures var after := rows[paymentId := rows[paymentId].(refundAmount := refundAmount, paymentStatus := PaymentRefunded)];
            IsReservationPaid(rows, rows[paymentId].reservationId) == Ok(true)
            && IsReservationPaid(after, rows[paymentId].reservationId) == Ok(false)
  {
    var rid := rows[paymentId].reservationId;
    var after := rows[paymentId := rows[paymentId].(refundAmount := refundAmount, paymentStatus := PaymentRefunded)];
    assert forall k :: k in after && after[k].reservationId == rid ==> k == paymentId;
  }
}
