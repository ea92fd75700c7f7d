/**
 * The payment queries (helpers/paymentHelpers.js): listings newest first, the lookup by
 * order id, the revenue of a vendor over a month and the searches by date range.
 */
module Payments {
  import opened Basics
  import opened Seqs

  /** A stored payment (models/payments.js); `date` is a timestamp in milliseconds. */
  datatype Payment = Payment(
    id: Id,
    bookingId: string,
    vendorId: string,
    userId: string,
    amount: int,
    status: string,
    paymentId: Option<string>,
    orderId: string,
    date: int)

  /** Whose payments a listing or search covers. */
  datatype Scope = Everyone | OfUser(userId: string) | OfVendor(vendorId: string)

  datatype SearchError = BothDatesRequired

  const DayMs: int := 86400000

  function InScope(scope: Scope): Payment -> bool {
    (p: Payment) =>
      match scope
      case Everyone => true
      case OfUser(u) => p.userId == u
      case OfVendor(v) => p.vendorId == v
  }

  /** The sort key of `sort({ date: -1 })`: the later the date, the smaller the key. */
  function NewestFirst(p: Payment): int {
    -p.date
  }

  function Amount(p: Payment): int {
    p.amount
  }

  /**
   * `getPaymentsByUser`, `getAllPayments`, `getAllPaymentsByVendor`: the payments in scope,
   * latest first.
   */
  function ListPayments(payments: seq<Payment>, scope: Scope): (r: seq<Payment>)
    ensures forall i, j :: 0 <= i < j < |r| ==> r[i].date >= r[j].date
    ensures forall x :: multiset(r)[x] == if InScope(scope)(x) then multiset(payments)[x] else 0
  {
    var selected := Filter(payments, InScope(scope));
    SortBySpec(selected, NewestFirst);
    FilterMultiset(payments, InScope(scope));
    SortBy(selected, NewestFirst)
  }

  /** A user's or a vendor's listing is the full listing with the others' payments taken out. */
  lemma {:induction false} ScopedIsFilteredAll(payments: seq<Payment>, scope: Scope)
    ensures ListPayments(payments, scope) == Filter(ListPayments(payments, Everyone), InScope(scope))
  {
    FilterAll(payments, InScope(Everyone));
    SortByFilter(payments, NewestFirst, InScope(scope));
  }

  /** The store keeps order ids unique. */
  ghost predicate OrderIdsUnique(payments: seq<Payment>) {
    forall i, j :: 0 <= i < j < |payments| ==> payments[i].orderId != payments[j].orderId
  }

  /** `getPaymetDetails`: the payment with `orderId`, or none. */
  function PaymentDetails(payments: seq<Payment>, orderId: string): (r: Option<Payment>)
    ensures r.None? <==> forall i :: 0 <= i < |payments| ==> payments[i].orderId != orderId
    ensures r.Some? ==> r.value in payments && r.value.orderId == orderId
    ensures OrderIdsUnique(payments) ==>
      forall i :: 0 <= i < |payments| && payments[i].orderId == orderId ==> r == Some(payments[i])
  {
    match FirstIndex(payments, (p: Payment) => p.orderId == orderId)
    case None => None
    case Some(i) => Some(payments[i])
  }

  /** The `$match` stage of the revenue query. */
  function PaidWithin(vendorId: string, start: int, end: int): Payment -> bool {
    (p: Payment) => p.vendorId == vendorId && start <= p.date <= end && p.status == "paid"
  }

  /** The `$group` stage: no group when nothing matched, one group holding the sum otherwise. */
  function RevenueGroups(payments: seq<Payment>, vendorId: string, start: int, end: int): (r: seq<int>)
    ensures |r| <= 1
    ensures r == [] <==> forall i :: 0 <= i < |payments| ==> !PaidWithin(vendorId, start, end)(payments[i])
  {
    var matched := Filter(payments, PaidWithin(vendorId, start, end));
    FilterEmpty(payments, PaidWithin(vendorId, start, end));
    if matched == [] then [] else [Sum(matched, Amount)]
  }

  /**
   * `calculateCurrentMonthRevenue`: the total amount of the vendor's paid payments dated within
   * the month (`start` and `end` are its first and last millisecond), zero when there are none.
   */
  function MonthRevenue(payments: seq<Payment>, vendorId: string, start: int, end: int): (r: int)
    ensures r == Sum(Filter(payments, PaidWithin(vendorId, start, end)), Amount)
  {
    var groups := RevenueGroups(payments, vendorId, start, end);
    if |groups| > 0 then groups[0] else 0
  }

  /** Revenue adds up over any split of the payments. */
  lemma RevenueAdditive(a: seq<Payment>, b: seq<Payment>, vendorId: string, start: int, end: int)
    ensures MonthRevenue(a + b, vendorId, start, end) ==
            MonthRevenue(a, vendorId, start, end) + MonthRevenue(b, vendorId, start, end)
  {
    var p := PaidWithin(vendorId, start, end);
    FilterAppend(a, b, p);
    SumAppend(Filter(a, p), Filter(b, p), Amount);
  }

  /**
   * A new payment raises the revenue by its amount when it is the vendor's, paid and dated
   * within the month, and leaves it unchanged otherwise.
   */
  lemma RevenueOfNewPayment(payments: seq<Payment>, x: Payment, vendorId: string, start: int, end: int)
    ensures MonthRevenue(payments + [x], vendorId, start, end) ==
      MonthRevenue(payments, vendorId, start, end) +
      (if x.vendorId == vendorId && start <= x.date <= end && x.status == "paid" then x.amount else 0)
  {
    var p := PaidWithin(vendorId, start, end);
    RevenueAdditive(payments, [x], vendorId, start, end);
    FilterCons(x, [], p);
    assert [x] + [] == [x];
    var f := Filter([x], p);
    assert f == if p(x) then [x] else [];
    if p(x) {
      assert f[1..] == [];
      assert Sum(f, Amount) == x.amount;
    }
  }

  /**
   * `end.setHours(23, 59, 59, 999)`: the last millisecond of the local day containing `t`,
   * local time being `offset` milliseconds ahead of UTC.
   */
  function EndOfDay(t: int, offset: int): (r: int)
    ensures t <= r < t + DayMs
    ensures (r + 1 + offset) % DayMs == 0
  {
    var local := t + offset;
    local - local % DayMs + DayMs - 1 - offset
  }

  /** Two instants of the same local day end at the same moment. */
  lemma EndOfDaySameDay(t: int, u: int, offset: int)
    requires (t + offset) / DayMs == (u + offset) / DayMs
    ensures EndOfDay(t, offset) == EndOfDay(u, offset)
  {
  }

  function Between(start: int, end: int): Payment -> bool {
    (p: Payment) => start <= p.date <= end
  }

  /**
   * `searchPaymentsByDate`, `searchPaymentsOfVendorByDate`, `searchPaymentsOfUserByDate`:
   * refused without both dates; otherwise the payments in scope dated from `start` to the end
   * of the day of `end`, latest first.
   */
  function SearchByDate(payments: seq<Payment>, start: Option<int>, end: Option<int>, scope: Scope, offset: int)
    : (r: Result<seq<Payment>, SearchError>)
    ensures r.Err? <==> start.None? || end.None?
  {
    if start.None? || end.None? then Err(BothDatesRequired)
    else
      var selected := Filter(Filter(payments, InScope(scope)), Between(start.value, EndOfDay(end.value, offset)));
      Ok(SortBy(selected, NewestFirst))
  }

  /** A search is the listing of the same scope cut down to the date range, order kept. */
  lemma {:induction false} SearchIsWindowOfList(payments: seq<Payment>, start: int, end: int, scope: Scope, offset: int)
    ensures SearchByDate(payments, Some(start), Some(end), scope, offset) ==
            Ok(Filter(ListPayments(payments, scope), Between(start, EndOfDay(end, offset))))
  {
    SortByFilter(Filter(payments, InScope(scope)), NewestFirst, Between(start, EndOfDay(end, offset)));
  }

  /** A search returns its payments latest first. */
  lemma SearchOrder(payments: seq<Payment>, start: int, end: int, scope: Scope, offset: int)
    ensures var r := SearchByDate(payments, Some(start), Some(end), scope, offset).value;
      forall i, j :: 0 <= i < j < |r| ==> r[i].date >= r[j].date
  {
    var selected := Filter(Filter(payments, InScope(scope)), Between(start, EndOfDay(end, offset)));
    SortBySpec(selected, NewestFirst);
  }

  /** A search returns every payment in scope dated in the range, each as often as it is stored, and nothing else. */
  lemma SearchContents(payments: seq<Payment>, start: int, end: int, scope: Scope, offset: int)
    ensures var r := SearchByDate(payments, Some(start), Some(end), scope, offset).value;
      forall x :: multiset(r)[x] ==
        if InScope(scope)(x) && start <= x.date <= EndOfDay(end, offset) then multiset(payments)[x] else 0
  {
    var scoped := Filter(payments, InScope(scope));
    var selected := Filter(scoped, Between(start, EndOfDay(end, offset)));
    SortBySpec(selected, NewestFirst);
    FilterMultiset(payments, InScope(scope));
    FilterMultiset(scoped, Between(start, EndOfDay(end, offset)));
  }
}
