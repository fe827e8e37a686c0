/** `Invoice.get_invoice_intrastat_discount_per_line`: the amount each invoice
    line contributes to an Intrastat value once the invoice's discount-product
    lines have been spread over its other lines, per unit of quantity.

    The result, a dict keyed by invoice line in the source, is modelled as the
    sequence of its items in insertion order. Amounts are exact reals. */
module InvoiceDiscount {
  import opened Wrappers
  import opened Records

  /** One item of the per-line result: the line, the invoice it belongs to, and
      the amount attributed to it. */
  datatype LineShare = LineShare(line: InvoiceLine, invoice: Invoice, amount: real)

  /** The line's amount in company currency when invoice lines have that
      field, else its plain amount. */
  function LineAmount(l: InvoiceLine, cfg: Config): real {
    if cfg.companyAmountField then l.companyAmount else l.amount
  }

  predicate IsDiscountLine(l: InvoiceLine, discountProduct: ProductId) {
    l.product == Some(discountProduct)
  }

  function IdsOf(invs: seq<Invoice>): set<InvoiceId> {
    set inv | inv in invs :: inv.id
  }

  /** No two invoices of the sequence share an id. */
  predicate DistinctIds(invs: seq<Invoice>) {
    forall i, j :: 0 <= i < j < |invs| ==> invs[i].id != invs[j].id
  }

  /** The invoice search by id: every invoice once, in first-seen order. */
  function Dedup(invs: seq<Invoice>): (r: seq<Invoice>)
    ensures DistinctIds(r)
    ensures forall inv :: inv in r ==> inv in invs
    ensures IdsOf(r) == IdsOf(invs)
  {
    if |invs| == 0 then []
    else
      var rest := Dedup(invs[..|invs| - 1]);
      var last := invs[|invs| - 1];
      assert invs == invs[..|invs| - 1] + [last];
      assert IdsOf(invs) == IdsOf(invs[..|invs| - 1]) + {last.id};
      if last.id in IdsOf(rest) then rest
      else
        assert IdsOf(rest + [last]) == IdsOf(rest) + {last.id};
        rest + [last]
  }

  /** Total quantity of the lines that are not discount lines. */
  function NonDiscountQuantity(lines: seq<InvoiceLine>, p: ProductId): real {
    if |lines| == 0 then 0.0
    else
      (if IsDiscountLine(lines[0], p) then 0.0 else lines[0].quantity)
      + NonDiscountQuantity(lines[1..], p)
  }

  /** Total amount of the lines that are not discount lines. */
  function NonDiscountAmount(lines: seq<InvoiceLine>, p: ProductId, cfg: Config): real {
    if |lines| == 0 then 0.0
    else
      (if IsDiscountLine(lines[0], p) then 0.0 else LineAmount(lines[0], cfg))
      + NonDiscountAmount(lines[1..], p, cfg)
  }

  /** Total amount of the discount lines. */
  function DiscountTotal(lines: seq<InvoiceLine>, p: ProductId, cfg: Config): real {
    if |lines| == 0 then 0.0
    else
      (if IsDiscountLine(lines[0], p) then LineAmount(lines[0], cfg) else 0.0)
      + DiscountTotal(lines[1..], p, cfg)
  }

  /** The lines that are not discount lines, in order. */
  function NonDiscountLines(lines: seq<InvoiceLine>, p: ProductId): (r: seq<InvoiceLine>)
    ensures forall l :: l in r <==> l in lines && !IsDiscountLine(l, p)
  {
    if |lines| == 0 then []
    else
      (if IsDiscountLine(lines[0], p) then [] else [lines[0]])
      + NonDiscountLines(lines[1..], p)
  }

  /** The lines the shares are attributed to, in order. */
  function SharedLines(shares: seq<LineShare>): (r: seq<InvoiceLine>)
    ensures |r| == |shares|
    ensures forall i :: 0 <= i < |shares| ==> r[i] == shares[i].line
  {
    if |shares| == 0 then [] else [shares[0].line] + SharedLines(shares[1..])
  }

  /** Sum of the attributed amounts. */
  function SumShares(shares: seq<LineShare>): real {
    if |shares| == 0 then 0.0 else shares[0].amount + SumShares(shares[1..])
  }

  /** The line's amount plus its quantity times `perUnit`. */
  function Attributed(l: InvoiceLine, cfg: Config, perUnit: real): real {
    LineAmount(l, cfg) + Times(perUnit, l.quantity)
  }

  /** Product of an amount per unit and a quantity. Kept as a named function so
      that equal factors give equal products without arithmetic reasoning. */
  function Times(perUnit: real, quantity: real): real {
    perUnit * quantity
  }

  /** Attributes to every non-discount line of `inv` its own amount plus its
      quantity times `perUnit`. */
  function Spread(lines: seq<InvoiceLine>, inv: Invoice, p: ProductId, cfg: Config, perUnit: real)
    : (r: seq<LineShare>)
    ensures SharedLines(r) == NonDiscountLines(lines, p)
    ensures forall i :: 0 <= i < |r| ==>
      r[i].invoice == inv && r[i].amount == Attributed(r[i].line, cfg, perUnit)
  {
    if |lines| == 0 then []
    else
      var rest := Spread(lines[1..], inv, p, cfg, perUnit);
      if IsDiscountLine(lines[0], p) then rest
      else
        var head := LineShare(lines[0], inv, Attributed(lines[0], cfg, perUnit));
        assert SharedLines([head] + rest) == [head.line] + SharedLines(rest);
        [head] + rest
  }

  /** The discount per unit of the invoice: its discount total over its
      non-discount quantity, or nothing when either is zero. */
  function PerUnitDiscount(inv: Invoice, p: ProductId, cfg: Config): (r: real)
    ensures NonDiscountQuantity(inv.lines, p) == 0.0 || DiscountTotal(inv.lines, p, cfg) == 0.0 ==> r == 0.0
    ensures NonDiscountQuantity(inv.lines, p) != 0.0 ==>
      Times(r, NonDiscountQuantity(inv.lines, p)) == DiscountTotal(inv.lines, p, cfg)
  {
    var quantity := NonDiscountQuantity(inv.lines, p);
    var discount := DiscountTotal(inv.lines, p, cfg);
    if quantity != 0.0 && discount != 0.0 then
      assert (discount / quantity) * quantity == discount;
      discount / quantity
    else 0.0
  }

  /** The items one invoice adds to the result when a discount product is set. */
  function InvoiceShares(inv: Invoice, p: ProductId, cfg: Config): (r: seq<LineShare>)
    ensures SharedLines(r) == NonDiscountLines(inv.lines, p)
    ensures forall i :: 0 <= i < |r| ==>
      r[i].invoice == inv && r[i].amount == Attributed(r[i].line, cfg, PerUnitDiscount(inv, p, cfg))
  {
    Spread(inv.lines, inv, p, cfg, PerUnitDiscount(inv, p, cfg))
  }

  /** Every line of every invoice with a zero amount: the result when no
      discount product is configured. */
  function ZeroShares(invs: seq<Invoice>): (r: seq<LineShare>)
    ensures forall i :: 0 <= i < |r| ==> r[i].amount == 0.0 && r[i].invoice in invs && r[i].line in r[i].invoice.lines
    ensures forall inv, l :: inv in invs && l in inv.lines ==> LineShare(l, inv, 0.0) in r
  {
    if |invs| == 0 then []
    else ZeroLines(invs[0], invs[0].lines) + ZeroShares(invs[1..])
  }

  function ZeroLines(inv: Invoice, lines: seq<InvoiceLine>): (r: seq<LineShare>)
    ensures forall i :: 0 <= i < |r| ==> r[i].amount == 0.0 && r[i].invoice == inv && r[i].line in lines
    ensures forall l :: l in lines ==> LineShare(l, inv, 0.0) in r
  {
    if |lines| == 0 then [] else [LineShare(lines[0], inv, 0.0)] + ZeroLines(inv, lines[1..])
  }

  /** The items of all the invoices, one invoice after the other. */
  function AllInvoiceShares(invs: seq<Invoice>, p: ProductId, cfg: Config): (r: seq<LineShare>)
    ensures forall i :: 0 <= i < |r| ==>
      r[i].invoice in invs && r[i] in InvoiceShares(r[i].invoice, p, cfg)
  {
    if |invs| == 0 then []
    else
      var head := InvoiceShares(invs[0], p, cfg);
      var rest := AllInvoiceShares(invs[1..], p, cfg);
      assert forall i :: 0 <= i < |head| ==> head[i] in InvoiceShares(head[i].invoice, p, cfg);
      head + rest
  }

  /** `get_invoice_intrastat_discount_per_line(invoices)`. */
  function DiscountPerLine(invs: seq<Invoice>, cfg: Config): (r: seq<LineShare>)
    // Provenance: every item is a line of one of the given invoices.
    ensures forall i :: 0 <= i < |r| ==> r[i].invoice in invs && r[i].line in r[i].invoice.lines
    // No discount product: every line maps to zero.
    ensures cfg.discountProduct.None? ==>
      (forall i :: 0 <= i < |r| ==> r[i].amount == 0.0)
      && (forall inv, l :: inv in Dedup(invs) && l in inv.lines ==> LineShare(l, inv, 0.0) in r)
    // Discount product: discount lines never appear, and each item is what its
    // own invoice alone attributes to it.
    ensures cfg.discountProduct.Some? ==> forall i :: 0 <= i < |r| ==>
      !IsDiscountLine(r[i].line, cfg.discountProduct.value)
      && r[i] in InvoiceShares(r[i].invoice, cfg.discountProduct.value, cfg)
  {
    var unique := Dedup(invs);
    match cfg.discountProduct
    case None => ZeroShares(unique)
    case Some(p) =>
      var r := AllInvoiceShares(unique, p, cfg);
      assert forall i :: 0 <= i < |r| ==> r[i].line in SharedLines(InvoiceShares(r[i].invoice, p, cfg)) by {
        forall i | 0 <= i < |r|
          ensures r[i].line in SharedLines(InvoiceShares(r[i].invoice, p, cfg))
        {
          var s := InvoiceShares(r[i].invoice, p, cfg);
          var k :| 0 <= k < |s| && s[k] == r[i];
          assert SharedLines(s)[k] == r[i].line;
        }
      }
      r
  }

  /** Spreading `perUnit` over the non-discount lines adds exactly
      perUnit times their total quantity to their total amount. */
  lemma {:induction false} SpreadSum(lines: seq<InvoiceLine>, inv: Invoice, p: ProductId, cfg: Config, perUnit: real)
    ensures SumShares(Spread(lines, inv, p, cfg, perUnit))
      == NonDiscountAmount(lines, p, cfg) + Times(perUnit, NonDiscountQuantity(lines, p))
  {
    if |lines| > 0 {
      var rest := Spread(lines[1..], inv, p, cfg, perUnit);
      var amount := NonDiscountAmount(lines[1..], p, cfg);
      var quantity := NonDiscountQuantity(lines[1..], p);
      SpreadSum(lines[1..], inv, p, cfg, perUnit);
      assert SumShares(rest) == amount + Times(perUnit, quantity);
      if IsDiscountLine(lines[0], p) {
        assert Spread(lines, inv, p, cfg, perUnit) == rest;
        assert NonDiscountAmount(lines, p, cfg) == amount;
        assert NonDiscountQuantity(lines, p) == quantity;
      } else {
        var l := lines[0];
        var head := LineShare(l, inv, Attributed(l, cfg, perUnit));
        assert Spread(lines, inv, p, cfg, perUnit) == [head] + rest;
        assert ([head] + rest)[1..] == rest;
        assert SumShares([head] + rest) == head.amount + SumShares(rest);
        assert NonDiscountAmount(lines, p, cfg) == LineAmount(l, cfg) + amount;
        assert NonDiscountQuantity(lines, p) == l.quantity + quantity;
        Distribute(perUnit, l.quantity, quantity);
      }
    }
  }

  lemma Distribute(a: real, b: real, c: real)
    ensures Times(a, b + c) == Times(a, b) + Times(a, c)
  {
  }

  /** Conservation: the amounts attributed to an invoice's lines add up to the
      non-discount amounts plus the discount total, unless the non-discount
      quantity is zero, in which case the amounts are left as they are. */
  lemma InvoiceSharesConserve(inv: Invoice, p: ProductId, cfg: Config)
    ensures NonDiscountQuantity(inv.lines, p) != 0.0 ==>
      SumShares(InvoiceShares(inv, p, cfg))
        == NonDiscountAmount(inv.lines, p, cfg) + DiscountTotal(inv.lines, p, cfg)
    ensures NonDiscountQuantity(inv.lines, p) == 0.0 ==>
      SumShares(InvoiceShares(inv, p, cfg)) == NonDiscountAmount(inv.lines, p, cfg)
  {
    var quantity := NonDiscountQuantity(inv.lines, p);
    var perUnit := PerUnitDiscount(inv, p, cfg);
    SpreadSum(inv.lines, inv, p, cfg, perUnit);
    if quantity == 0.0 {
      assert Times(perUnit, quantity) == 0.0;
    } else {
      assert Times(perUnit, quantity) == DiscountTotal(inv.lines, p, cfg);
    }
  }

  /** Every invoice id of the input is kept by Dedup, with the invoice that
      carries it when ids identify invoices. */
  lemma DedupKeeps(invs: seq<Invoice>, inv: Invoice)
    requires forall a, b :: a in invs && b in invs && a.id == b.id ==> a == b
    requires inv in invs
    ensures inv in Dedup(invs)
  {
    assert inv.id in IdsOf(invs);
    assert inv.id in IdsOf(Dedup(invs));
    var other :| other in Dedup(invs) && other.id == inv.id;
  }

  /** With a discount product, every non-discount line of every given invoice
      has an item in the result (ids identifying invoices). */
  lemma {:induction false} DiscountPerLineCovers(invs: seq<Invoice>, cfg: Config, inv: Invoice, l: InvoiceLine)
    requires cfg.discountProduct.Some?
    requires forall a, b :: a in invs && b in invs && a.id == b.id ==> a == b
    requires inv in invs && l in inv.lines && !IsDiscountLine(l, cfg.discountProduct.value)
    ensures exists e :: e in DiscountPerLine(invs, cfg) && e.line == l && e.invoice == inv
  {
    DedupKeeps(invs, inv);
    var p := cfg.discountProduct.value;
    var k := AllSharesCover(Dedup(invs), p, cfg, inv, l);
    assert DiscountPerLine(invs, cfg)[k].line == l;
  }

  lemma {:induction false} AllSharesCover(invs: seq<Invoice>, p: ProductId, cfg: Config, inv: Invoice, l: InvoiceLine)
    returns (k: nat)
    requires inv in invs && l in inv.lines && !IsDiscountLine(l, p)
    ensures k < |AllInvoiceShares(invs, p, cfg)|
    ensures AllInvoiceShares(invs, p, cfg)[k].line == l && AllInvoiceShares(invs, p, cfg)[k].invoice == inv
  {
    var head := InvoiceShares(invs[0], p, cfg);
    assert AllInvoiceShares(invs, p, cfg) == head + AllInvoiceShares(invs[1..], p, cfg);
    if invs[0] == inv {
      assert l in NonDiscountLines(inv.lines, p);
      assert l in SharedLines(head);
      var j :| 0 <= j < |head| && SharedLines(head)[j] == l;
      k := j;
    } else {
      assert inv in invs[1..];
      var j := AllSharesCover(invs[1..], p, cfg, inv, l);
      k := |head| + j;
    }
  }
}
