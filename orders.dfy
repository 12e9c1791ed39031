/** The order record: its required fields, the payment-status enumeration, the
    default status, and the total the save hook computes as the sum of
    quantity times unit price over the line items. Amounts are whole numbers;
    a field left out of the submitted document is `None`. */
module Orders {
  import opened Common

  const DefaultOrderStatus: string := "Pending"

  datatype PaymentStatus = Unpaid | Paid

  /** A line item as submitted. */
  datatype LineDraft = LineDraft(product: Option<string>, quantity: Option<int>, price: Option<int>)

  /** An order as submitted, before validation. */
  datatype OrderDraft = OrderDraft(
    user: Option<string>,
    products: seq<LineDraft>,
    shippingAddress: Option<string>,
    paymentStatus: Option<string>,
    totalPrice: Option<int>,
    status: Option<string>)

  datatype LineItem = LineItem(product: string, quantity: int, price: int)

  /** An order as stored. */
  datatype Order = Order(
    user: string,
    products: seq<LineItem>,
    shippingAddress: string,
    paymentStatus: PaymentStatus,
    totalPrice: int,
    status: string)

  /** The paths validation can reject; all failing paths are reported together. */
  datatype OrderError =
    | UserRequired
    | ProductRequired(line: nat)
    | QuantityRequired(line: nat)
    | PriceRequired(line: nat)
    | ShippingAddressRequired
    | PaymentStatusInvalid
    | TotalPriceRequired

  // ---------------------------------------------------------------- the total

  /** The reference sum: quantity times price, item by item. */
  function Sum(items: seq<LineItem>): int
  {
    if |items| == 0 then 0 else items[0].quantity * items[0].price + Sum(items[1..])
  }

  /** The hook's `reduce`: a running total, starting from `acc`, that adds each
      item's quantity times price from left to right. */
  function Fold(acc: int, items: seq<LineItem>): (r: int)
    decreases |items|
  {
    if |items| == 0 then acc else Fold(acc + items[0].quantity * items[0].price, items[1..])
  }

  /** The left-to-right running total started at zero is the sum. */
  lemma {:induction false} FoldIsSum(acc: int, items: seq<LineItem>)
    ensures Fold(acc, items) == acc + Sum(items)
    decreases |items|
  {
    if |items| > 0 {
      FoldIsSum(acc + items[0].quantity * items[0].price, items[1..]);
    }
  }

  /** The total of an order split in two is the sum of the parts' totals. */
  lemma {:induction false} SumAppend(a: seq<LineItem>, b: seq<LineItem>)
    ensures Sum(a + b) == Sum(a) + Sum(b)
  {
    if |a| == 0 {
      assert a + b == b;
    } else {
      assert (a + b)[1..] == a[1..] + b;
      SumAppend(a[1..], b);
    }
  }

  /** Non-negative quantities and prices give a non-negative total. */
  lemma {:induction false} SumNonNegative(items: seq<LineItem>)
    requires forall i :: 0 <= i < |items| ==> items[i].quantity >= 0 && items[i].price >= 0
    ensures Sum(items) >= 0
  {
    if |items| > 0 {
      SumNonNegative(items[1..]);
    }
  }

  /** The total the hook writes, for items that passed validation. */
  function OrderTotal(items: seq<LineItem>): (r: int)
    ensures r == Sum(items)
    ensures |items| == 0 ==> r == 0
  {
    FoldIsSum(0, items);
    Fold(0, items)
  }

  // ---------------------------------------------------------------- validation

  function ParsePaymentStatus(s: Option<string>): (r: Option<PaymentStatus>)
    ensures r == Some(Unpaid) <==> s == Some("Unpaid")
    ensures r == Some(Paid) <==> s == Some("Paid")
    ensures r.None? <==> s != Some("Unpaid") && s != Some("Paid")
  {
    if s == Some("Unpaid") then Some(Unpaid) else if s == Some("Paid") then Some(Paid) else None
  }

  predicate LineComplete(l: LineDraft) {
    Present(l.product) && l.quantity.Some? && l.price.Some?
  }

  /** The required-field failures of the one line item at position `at`. */
  function ItemErrors(l: LineDraft, at: nat): (r: set<OrderError>)
    ensures forall e :: e in r <==>
      || (e == ProductRequired(at) && !Present(l.product))
      || (e == QuantityRequired(at) && l.quantity.None?)
      || (e == PriceRequired(at) && l.price.None?)
  {
    (if Present(l.product) then {} else {ProductRequired(at)})
    + (if l.quantity.Some? then {} else {QuantityRequired(at)})
    + (if l.price.Some? then {} else {PriceRequired(at)})
  }

  /** The required-field failures of the line items from position `from` on. */
  function LineErrors(lines: seq<LineDraft>, from: nat): (r: set<OrderError>)
    ensures forall e :: e in r ==> e.ProductRequired? || e.QuantityRequired? || e.PriceRequired?
    ensures forall n: nat :: ProductRequired(n) in r <==> from <= n < from + |lines| && !Present(lines[n - from].product)
    ensures forall n: nat :: QuantityRequired(n) in r <==> from <= n < from + |lines| && lines[n - from].quantity.None?
    ensures forall n: nat :: PriceRequired(n) in r <==> from <= n < from + |lines| && lines[n - from].price.None?
    decreases |lines|
  {
    if |lines| == 0 then {}
    else
      var here := ItemErrors(lines[0], from);
      var rest := LineErrors(lines[1..], from + 1);
      assert forall k :: 0 <= k < |lines| - 1 ==> lines[1..][k] == lines[k + 1];
      here + rest
  }

  /** The schema's checks other than the total: user, every item's product,
      quantity and price, shipping address, and the payment-status enumeration. */
  function FieldErrors(d: OrderDraft): (r: set<OrderError>)
    ensures r == {} <==>
      && Present(d.user) && Present(d.shippingAddress) && ParsePaymentStatus(d.paymentStatus).Some?
      && forall i :: 0 <= i < |d.products| ==> LineComplete(d.products[i])
    ensures TotalPriceRequired !in r
  {
    var lines := LineErrors(d.products, 0);
    NoLineErrors(d.products);
    var user: set<OrderError> := if Present(d.user) then {} else {UserRequired};
    var address: set<OrderError> := if Present(d.shippingAddress) then {} else {ShippingAddressRequired};
    var payment: set<OrderError> := if ParsePaymentStatus(d.paymentStatus).Some? then {} else {PaymentStatusInvalid};
    assert user == {} <==> Present(d.user);
    assert address == {} <==> Present(d.shippingAddress);
    assert payment == {} <==> ParsePaymentStatus(d.paymentStatus).Some?;
    user + lines + address + payment
  }

  /** No line item fails exactly when every line item is complete. */
  lemma NoLineErrors(products: seq<LineDraft>)
    ensures LineErrors(products, 0) == {} <==> forall i :: 0 <= i < |products| ==> LineComplete(products[i])
  {
    var lines := LineErrors(products, 0);
    if lines != {} {
      var e :| e in lines;
    }
    if exists i :: 0 <= i < |products| && !LineComplete(products[i]) {
      var i :| 0 <= i < |products| && !LineComplete(products[i]);
      assert ProductRequired(i) in lines || QuantityRequired(i) in lines || PriceRequired(i) in lines;
    }
  }

  /** The stored order for a draft whose fields all passed: the total is
      recomputed and the status defaults to "Pending". */
  function Build(d: OrderDraft): (r: Order)
    requires FieldErrors(d) == {}
    ensures |r.products| == |d.products|
    ensures forall i :: 0 <= i < |d.products| ==>
      r.products[i] == LineItem(d.products[i].product.value, d.products[i].quantity.value, d.products[i].price.value)
    ensures r.totalPrice == Sum(r.products)
    ensures r.status == (if d.status.Some? then d.status.value else DefaultOrderStatus)
    ensures Some(r.paymentStatus) == ParsePaymentStatus(d.paymentStatus)
  {
    var items := seq(|d.products|, i requires 0 <= i < |d.products| =>
      LineItem(d.products[i].product.value, d.products[i].quantity.value, d.products[i].price.value));
    Order(d.user.value, items, d.shippingAddress.value, ParsePaymentStatus(d.paymentStatus).value,
          OrderTotal(items), if d.status.Some? then d.status.value else DefaultOrderStatus)
  }

  /** Saving as the schema is written: validation, which requires a total,
      runs before the hook that computes the total. */
  function SaveAsWritten(d: OrderDraft): (r: Result<Order, set<OrderError>>)
    ensures r.Err? <==> FieldErrors(d) != {} || d.totalPrice.None?
    ensures r.Err? ==> r.error == FieldErrors(d) + (if d.totalPrice.None? then {TotalPriceRequired} else {})
    ensures r.Ok? ==> r.value.totalPrice == Sum(r.value.products)
  {
    var errs := FieldErrors(d) + (if d.totalPrice.None? then {TotalPriceRequired} else {});
    if errs != {} then Err(errs) else Ok(Build(d))
  }

  /** Saving with the total computed before validation: the total is never
      required from the caller, and whatever total was supplied is replaced. */
  function Save(d: OrderDraft): (r: Result<Order, set<OrderError>>)
    ensures r.Err? <==> FieldErrors(d) != {}
    ensures r.Err? ==> r.error == FieldErrors(d) && TotalPriceRequired !in r.error
    ensures r.Ok? ==> r.value.totalPrice == Sum(r.value.products)
    ensures r.Ok? && d.products == [] ==> r.value.totalPrice == 0
  {
    if FieldErrors(d) != {} then Err(FieldErrors(d)) else Ok(Build(d))
  }

  /** Whatever total a caller supplies, both saves store the recomputed one, so
      they agree whenever a total is supplied. */
  lemma SuppliedTotalIsOverwritten(d: OrderDraft, t1: int, t2: int)
    ensures Save(d.(totalPrice := Some(t1))) == Save(d.(totalPrice := Some(t2)))
    ensures SaveAsWritten(d.(totalPrice := Some(t1))) == Save(d)
  {
    var d1, d2 := d.(totalPrice := Some(t1)), d.(totalPrice := Some(t2));
    assert FieldErrors(d1) == FieldErrors(d) && FieldErrors(d2) == FieldErrors(d);
    assert FieldErrors(d1) + {} == FieldErrors(d);
    if FieldErrors(d) == {} {
      assert Build(d1) == Build(d) == Build(d2);
    }
  }

  const SampleOrder: OrderDraft :=
    OrderDraft(Some("u1"), [LineDraft(Some("p1"), Some(2), Some(150))], Some("Bangkok"), Some("Unpaid"), None, None)

  /** As written, a complete order that leaves the total to the hook is
      refused for a missing total; with the hook run first it is stored with
      total 300 and status "Pending". */
  lemma OmittedTotalRefusedAsWritten()
    ensures SaveAsWritten(SampleOrder) == Err({TotalPriceRequired})
    ensures Save(SampleOrder).Ok?
    ensures Save(SampleOrder).value.totalPrice == 300
    ensures Save(SampleOrder).value.status == DefaultOrderStatus
  {
    var d := SampleOrder;
    assert LineComplete(d.products[0]);
    assert FieldErrors(d) == {};
    assert FieldErrors(d) + {TotalPriceRequired} == {TotalPriceRequired};
    var o := Save(d).value;
    assert o.products == [LineItem("p1", 2, 150)];
    assert Sum(o.products) == 300;
  }
}
