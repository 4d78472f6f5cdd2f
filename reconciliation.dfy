/**
 * The body of the `/api/purchases` handler (app.js:110-125): keep the
 * payments that are not yet in the handled-purchase ledger and that carry a
 * shipping address, in the order the payment source returned them, and map
 * each to the record the admin client shows.
 */
module Reconciliation {
  import opened Options
  import opened AddressNormalizer

  /** A payment as listed by the payment processor; `amount` is in cents. */
  datatype Payment = Payment(
    id: string,
    createdAt: string,
    amount: int,
    shippingAddress: Option<ShippingAddress>)

  /** One element of the handler's JSON reply. */
  datatype Purchase = Purchase(id: string, date: string, price: real, address: string)

  /** `!handledPurchases.includes(it.id) && it.shippingAddress` */
  predicate Pending(p: Payment, handled: seq<string>)
  {
    p.id !in handled && p.shippingAddress.Some?
  }

  /** `Number(amount) / 100`, as an exact decimal. */
  function Price(amount: int): (r: real)
    ensures r * 100.0 == amount as real
  {
    amount as real / 100.0
  }

  /** The record pushed for a payment: `{id, date, Price, Address}`. */
  function ToPurchase(p: Payment): (r: Purchase)
    requires p.shippingAddress.Some?
    ensures r.id == p.id && r.date == p.createdAt
    ensures r.price * 100.0 == p.amount as real
    ensures r.address != ""
  {
    Purchase(p.id, p.createdAt, Price(p.amount), Normalize(p.shippingAddress.value))
  }

  /** The filter-and-map the handler performs, defined on the prefix so that
      it follows the order of the `forEach`. */
  function Unhandled(payments: seq<Payment>, handled: seq<string>): (r: seq<Purchase>)
    ensures |r| <= |payments|
  {
    if payments == [] then []
    else
      var last := payments[|payments| - 1];
      Unhandled(payments[..|payments| - 1], handled)
      + (if Pending(last, handled) then [ToPurchase(last)] else [])
  }

  /** The handler's loop (app.js:111-123); `total` is the X-Total-Count header. */
  method ListPurchases(payments: seq<Payment>, handled: seq<string>)
    returns (finalResult: seq<Purchase>, total: nat)
    ensures finalResult == Unhandled(payments, handled)
    ensures total == |finalResult|
  {
    finalResult := [];
    var i := 0;
    while i < |payments|
      invariant 0 <= i <= |payments|
      invariant finalResult == Unhandled(payments[..i], handled)
    {
      var it := payments[i];
      if it.id !in handled && it.shippingAddress.Some? {
        finalResult := finalResult + [ToPurchase(it)];
      }
      assert payments[..i + 1][..i] == payments[..i];
      i := i + 1;
    }
    assert payments[..i] == payments;
    total := |finalResult|;
  }

  /** The output is the concatenation of the outputs of any split of the
      input: source order is kept and nothing is reordered across payments. */
  lemma {:induction false} UnhandledAppend(a: seq<Payment>, b: seq<Payment>, handled: seq<string>)
    ensures Unhandled(a + b, handled) == Unhandled(a, handled) + Unhandled(b, handled)
  {
    if b == [] {
      assert a + b == a;
    } else {
      var b' := b[..|b| - 1];
      assert (a + b)[..|a + b| - 1] == a + b';
      UnhandledAppend(a, b', handled);
    }
  }

  /** A single payment is kept, mapped, exactly when it is pending. */
  lemma UnhandledSingle(p: Payment, handled: seq<string>)
    ensures Unhandled([p], handled) == if Pending(p, handled) then [ToPurchase(p)] else []
  {
  }

  /** Every output record comes from a pending payment of the input: in
      particular its id is not in the handled list. */
  lemma {:induction false} UnhandledSound(payments: seq<Payment>, handled: seq<string>)
    ensures forall k :: 0 <= k < |Unhandled(payments, handled)| ==>
      Unhandled(payments, handled)[k].id !in handled &&
      exists i :: 0 <= i < |payments| && Pending(payments[i], handled) &&
        Unhandled(payments, handled)[k] == ToPurchase(payments[i])
  {
    if payments != [] {
      var n := |payments| - 1;
      var front := payments[..n];
      UnhandledSound(front, handled);
      var r := Unhandled(payments, handled);
      forall k | 0 <= k < |r|
        ensures r[k].id !in handled
        ensures exists i :: 0 <= i < |payments| && Pending(payments[i], handled) && r[k] == ToPurchase(payments[i])
      {
        if k < |Unhandled(front, handled)| {
          assert r[k] == Unhandled(front, handled)[k];
          var i :| 0 <= i < |front| && Pending(front[i], handled) && r[k] == ToPurchase(front[i]);
          assert payments[i] == front[i];
        } else {
          assert r[k] == ToPurchase(payments[n]);
        }
      }
    }
  }

  /** Every pending payment of the input appears in the output. */
  lemma {:induction false} UnhandledComplete(payments: seq<Payment>, handled: seq<string>)
    ensures forall i :: 0 <= i < |payments| && Pending(payments[i], handled) ==>
      ToPurchase(payments[i]) in Unhandled(payments, handled)
  {
    if payments != [] {
      var n := |payments| - 1;
      var front := payments[..n];
      UnhandledComplete(front, handled);
      forall i | 0 <= i < |payments| && Pending(payments[i], handled)
        ensures ToPurchase(payments[i]) in Unhandled(payments, handled)
      {
        if i < n {
          assert payments[i] == front[i];
        }
      }
    }
  }

  /** A payment without a shipping address never appears, whether or not it
      was handled: inserting it anywhere leaves the output unchanged. */
  lemma NoAddressNeverListed(a: seq<Payment>, p: Payment, b: seq<Payment>, handled: seq<string>)
    requires p.shippingAddress.None?
    ensures Unhandled(a + [p] + b, handled) == Unhandled(a + b, handled)
  {
    UnhandledAppend(a + [p], b, handled);
    UnhandledAppend(a, [p], handled);
    UnhandledSingle(p, handled);
    UnhandledAppend(a, b, handled);
  }

  /** Only membership in the handled list matters: its order and duplicate
      entries do not change the result. */
  lemma {:induction false} OnlyMembershipMatters(payments: seq<Payment>, h1: seq<string>, h2: seq<string>)
    requires forall x :: x in h1 <==> x in h2
    ensures Unhandled(payments, h1) == Unhandled(payments, h2)
  {
    if payments != [] {
      OnlyMembershipMatters(payments[..|payments| - 1], h1, h2);
    }
  }

  /** A duplicate ledger entry does not change the result. */
  lemma DuplicateHandledIgnored(payments: seq<Payment>, handled: seq<string>, id: string)
    requires id in handled
    ensures Unhandled(payments, handled + [id]) == Unhandled(payments, handled)
  {
  }

  /** A worked case: with an empty ledger, a payment of 1000 cents with a
      street and a postal code is listed at 10.00 with region "CA" filled in,
      and a payment without an address is dropped. */
  lemma WorkedExample()
    ensures var a := ShippingAddress(Some("1 Main St"), None, None, None, Some("90001"));
      Unhandled([Payment("a", "t0", 1000, Some(a)), Payment("b", "t1", 500, None)], [])
      == [Purchase("a", "t0", 10.0, "1 Main St CA 90001")]
  {
    var a := ShippingAddress(Some("1 Main St"), None, None, None, Some("90001"));
    var pa := Payment("a", "t0", 1000, Some(a));
    var pb := Payment("b", "t1", 500, None);
    WorkedAddress();
    assert ToPurchase(pa) == Purchase("a", "t0", 10.0, "1 Main St CA 90001");
    assert [pa, pb][..1] == [pa];
    UnhandledSingle(pa, []);
  }

  /** The address of the worked case normalises with the region filled in. */
  lemma WorkedAddress()
    ensures Normalize(ShippingAddress(Some("1 Main St"), None, None, None, Some("90001"))) == "1 Main St CA 90001"
  {
    var a := ShippingAddress(Some("1 Main St"), None, None, None, Some("90001"));
    NormalizeJoinsFields(a);
    var f := ["1 Main St", "CA", "90001"];
    assert Fields(a) == f;
    assert Join(f[1..][1..], " ") == "90001";
    assert Join(f[1..], " ") == "CA 90001";
  }
}
