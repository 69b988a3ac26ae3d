/**
 * The quotation editor (src/components/admin/QuotationManager.tsx): a
 * quotation with a list of line items that the handlers replace, and the
 * subtotal, VAT and total shown under it. Amounts are exact reals, not
 * floating point; new item ids are inputs.
 */
module Quotation {
  import opened Seqs

  datatype LineItem = LineItem(id: string, description: string, qty: real, unit: string, unitPrice: real)

  /** The text fields of the quotation. */
  datatype TextField =
    | QuotationNo | Date | ValidUntil | ClientName | ClientAddress | ClientPhone | ProjectName | Note | PaymentTerms

  datatype QuotationData = QuotationData(
    quotationNo: string, date: string, validUntil: string,
    clientName: string, clientAddress: string, clientPhone: string, projectName: string,
    items: seq<LineItem>, vatPercent: real, note: string, paymentTerms: string)

  /** A call of `updateField(key, value)` as the form makes it: a text field, or the VAT rate. */
  datatype FieldUpdate = SetText(key: TextField, text: string) | SetVatPercent(rate: real)

  /** A call of `updateItem(id, key, value)`: one field of a line item. */
  datatype ItemUpdate = SetDescription(description: string) | SetQty(qty: real) | SetUnit(unit: string) | SetUnitPrice(unitPrice: real)

  /** "ชุด" ("set"), the unit of a new item. */
  const DefaultUnit: string := "ชุด"

  /** `emptyItem()` with the random id given. */
  function EmptyItem(id: string): LineItem { LineItem(id, "", 1.0, DefaultUnit, 0.0) }

  // ---------------------------------------------------------------------
  // Amounts
  // ---------------------------------------------------------------------

  function RowTotal(it: LineItem): real { it.qty * it.unitPrice }

  /**
   * `items.reduce((s, it) => s + it.qty * it.unitPrice, 0)`: with no negative
   * quantity or price the sum is not negative.
   */
  function Subtotal(items: seq<LineItem>): (s: real)
    ensures (forall it :: it in items ==> it.qty >= 0.0 && it.unitPrice >= 0.0) ==> s >= 0.0
    decreases |items|
  {
    if items == [] then 0.0
    else
      assert forall it :: it in items[..|items| - 1] ==> it in items;
      assert items[|items| - 1] in items;
      Subtotal(items[..|items| - 1]) + RowTotal(items[|items| - 1])
  }

  function VatAmount(d: QuotationData): real { Subtotal(d.items) * d.vatPercent / 100.0 }

  /**
   * The grand total: the subtotal scaled by `1 + vat/100`. At 0 % it is the
   * subtotal (and the VAT line is hidden); a non-negative rate never lowers it.
   */
  function Total(d: QuotationData): (t: real)
    ensures t == Subtotal(d.items) * (1.0 + d.vatPercent / 100.0)
    ensures d.vatPercent == 0.0 ==> !ShowsVatLine(d) && t == Subtotal(d.items)
    ensures Subtotal(d.items) >= 0.0 && d.vatPercent >= 0.0 ==> t >= Subtotal(d.items)
  {
    Subtotal(d.items) + VatAmount(d)
  }

  /** The VAT line of the printed quotation (QuotationManager.tsx:301). */
  predicate ShowsVatLine(d: QuotationData) { d.vatPercent > 0.0 }

  lemma {:induction false} SubtotalAppend(a: seq<LineItem>, b: seq<LineItem>)
    ensures Subtotal(a + b) == Subtotal(a) + Subtotal(b)
    decreases |b|
  {
    if b == [] {
      assert a + b == a;
    } else {
      var b' := b[..|b| - 1];
      assert (a + b)[..|a + b| - 1] == a + b';
      SubtotalAppend(a, b');
    }
  }

  /** Summing from the front comes to the same: the first row's total plus the subtotal of the rest. */
  lemma SubtotalFromFront(items: seq<LineItem>)
    requires items != []
    ensures Subtotal(items) == RowTotal(items[0]) + Subtotal(items[1..])
  {
    assert items == [items[0]] + items[1..];
    SubtotalAppend([items[0]], items[1..]);
    assert [items[0]][..0] == [];
  }

  // ---------------------------------------------------------------------
  // The state updates
  // ---------------------------------------------------------------------

  /** `{ ...d, [key]: value }`. */
  function FieldUpdated(d: QuotationData, u: FieldUpdate): QuotationData {
    match u
    case SetVatPercent(rate) => d.(vatPercent := rate)
    case SetText(key, text) =>
      match key
      case QuotationNo => d.(quotationNo := text)
      case Date => d.(date := text)
      case ValidUntil => d.(validUntil := text)
      case ClientName => d.(clientName := text)
      case ClientAddress => d.(clientAddress := text)
      case ClientPhone => d.(clientPhone := text)
      case ProjectName => d.(projectName := text)
      case Note => d.(note := text)
      case PaymentTerms => d.(paymentTerms := text)
  }

  /** Updating a text field keeps the items and hence all amounts; updating the rate keeps the subtotal. */
  lemma FieldUpdateKeepsItems(d: QuotationData, u: FieldUpdate)
    ensures FieldUpdated(d, u).items == d.items && Subtotal(FieldUpdated(d, u).items) == Subtotal(d.items)
    ensures u.SetText? ==> FieldUpdated(d, u).vatPercent == d.vatPercent && Total(FieldUpdated(d, u)) == Total(d)
    ensures u.SetVatPercent? ==> FieldUpdated(d, u) == d.(vatPercent := u.rate)
  {
  }

  /** `{ ...it, [key]: value }`. */
  function ItemUpdated(it: LineItem, u: ItemUpdate): LineItem {
    match u
    case SetDescription(s) => it.(description := s)
    case SetQty(q) => it.(qty := q)
    case SetUnit(s) => it.(unit := s)
    case SetUnitPrice(p) => it.(unitPrice := p)
  }

  /** `items.map(it => it.id === id ? { ...it, [key]: value } : it)`. */
  function ItemsUpdated(items: seq<LineItem>, id: string, u: ItemUpdate): (r: seq<LineItem>)
    ensures |r| == |items|
  {
    seq(|items|, i requires 0 <= i < |items| => if items[i].id == id then ItemUpdated(items[i], u) else items[i])
  }

  /** An item update changes the named field of the items with that id, and nothing else. */
  lemma ItemsUpdatedSpec(items: seq<LineItem>, id: string, u: ItemUpdate, i: nat)
    requires i < |items|
    ensures var r := ItemsUpdated(items, id, u)[i];
      r.id == items[i].id &&
      (items[i].id != id ==> r == items[i]) &&
      (items[i].id == id ==>
         (u.SetDescription? ==> r == items[i].(description := u.description)) &&
         (u.SetQty? ==> r == items[i].(qty := u.qty)) &&
         (u.SetUnit? ==> r == items[i].(unit := u.unit)) &&
         (u.SetUnitPrice? ==> r == items[i].(unitPrice := u.unitPrice)))
  {
  }

  /** Changing a description or a unit does not change the subtotal. */
  lemma {:induction false} TextEditKeepsSubtotal(items: seq<LineItem>, id: string, u: ItemUpdate)
    requires u.SetDescription? || u.SetUnit?
    ensures Subtotal(ItemsUpdated(items, id, u)) == Subtotal(items)
    decreases |items|
  {
    if items != [] {
      var init, r := items[..|items| - 1], ItemsUpdated(items, id, u);
      assert r[..|r| - 1] == ItemsUpdated(init, id, u);
      assert RowTotal(r[|r| - 1]) == RowTotal(items[|items| - 1]);
      TextEditKeepsSubtotal(init, id, u);
    }
  }

  /** `[...items, emptyItem()]`. */
  function ItemAdded(items: seq<LineItem>, freshId: string): seq<LineItem> { items + [EmptyItem(freshId)] }

  /** Adding a row appends one empty item and leaves the subtotal as it was. */
  lemma AddKeepsSubtotal(items: seq<LineItem>, freshId: string)
    ensures ItemAdded(items, freshId)[..|items|] == items && |ItemAdded(items, freshId)| == |items| + 1
    ensures Subtotal(ItemAdded(items, freshId)) == Subtotal(items)
  {
    SubtotalAppend(items, [EmptyItem(freshId)]);
    assert Subtotal([EmptyItem(freshId)]) == 0.0 by {
      assert [EmptyItem(freshId)][..0] == [];
    }
  }

  /** `items.filter(it => it.id !== id)`. */
  function ItemRemoved(items: seq<LineItem>, id: string): seq<LineItem> {
    Filter(items, (it: LineItem) => it.id != id)
  }

  /** Removing drops exactly the items with that id and keeps every other one, as often as before, in order. */
  lemma RemoveSpec(items: seq<LineItem>, id: string)
    ensures IsSubsequence(ItemRemoved(items, id), items)
    ensures forall it :: it in ItemRemoved(items, id) <==> it in items && it.id != id
    ensures forall it :: Count(ItemRemoved(items, id), it) == (if it.id != id then Count(items, it) else 0)
  {
  }

  /** The subtotal after a removal is the subtotal of the rows that stay. */
  lemma {:induction false} RemoveSubtotal(items: seq<LineItem>, id: string)
    ensures Subtotal(items) == Subtotal(ItemRemoved(items, id)) + Subtotal(Filter(items, (it: LineItem) => it.id == id))
    decreases |items|
  {
    if items != [] {
      var init, last := items[..|items| - 1], items[|items| - 1];
      assert items == init + [last];
      FilterAppend(init, [last], (it: LineItem) => it.id != id);
      FilterAppend(init, [last], (it: LineItem) => it.id == id);
      RemoveSubtotal(init, id);
      var kept, gone := Filter(init, (it: LineItem) => it.id != id), Filter(init, (it: LineItem) => it.id == id);
      if last.id == id {
        SubtotalAppend(gone, [last]);
        assert Filter([last], (it: LineItem) => it.id != id) == [];
        assert kept + [] == kept;
      } else {
        SubtotalAppend(kept, [last]);
        assert Filter([last], (it: LineItem) => it.id == id) == [];
        assert gone + [] == gone;
      }
      assert Subtotal([last]) == RowTotal(last) by {
        assert [last][..0] == [];
      }
    }
  }

  predicate IdsDistinct(items: seq<LineItem>) {
    forall i, j :: 0 <= i < j < |items| ==> items[i].id != items[j].id
  }

  /** The remove button is disabled for the last remaining row. */
  predicate RemoveDisabled(items: seq<LineItem>) { |items| == 1 }

  /**
   * With distinct ids, removing while the button is enabled drops exactly one
   * row of two or more, so the list never becomes empty.
   */
  lemma {:induction false} RemoveEnabledKeepsARow(items: seq<LineItem>, id: string)
    requires IdsDistinct(items) && |items| >= 1 && !RemoveDisabled(items)
    ensures |ItemRemoved(items, id)| >= 1
  {
    var a, b := items[0], items[1];
    assert a.id != b.id;
    var keep := (it: LineItem) => it.id != id;
    if a.id != id {
      assert a in ItemRemoved(items, id);
    } else {
      assert b in ItemRemoved(items, id);
    }
  }

  /** Adding an item with a fresh id keeps the ids distinct. */
  lemma AddKeepsIdsDistinct(items: seq<LineItem>, freshId: string)
    requires IdsDistinct(items) && forall it :: it in items ==> it.id != freshId
    ensures IdsDistinct(ItemAdded(items, freshId))
  {
    var r := ItemAdded(items, freshId);
    forall i, j | 0 <= i < j < |r| ensures r[i].id != r[j].id {
      if j == |items| {
        assert r[i] == items[i] && items[i] in items;
      }
    }
  }

  /** "The price includes labour and materials; VAT is not included." */
  const DefaultNote: string := "ราคานี้รวมค่าแรง" + "และค่าวัสดุแล้ว " + "ยังไม่รวม VAT"
  /** "50% deposit before work starts; the rest when the work is complete." */
  const DefaultPaymentTerms: string := "ชำระมัดจำ 50% " + "ก่อนเริ่มงาน " + "ส่วนที่เหลือชำระ" + "เมื่องานแล้วเสร็จ"

  /** `defaultData`, with its clock-dependent fields and the first item's id as inputs. */
  function DefaultData(quotationNo: string, date: string, validUntil: string, firstId: string): (d: QuotationData)
    ensures d.items == [EmptyItem(firstId)] && Subtotal(d.items) == 0.0 && d.vatPercent == 7.0
    ensures d.quotationNo == quotationNo && d.date == date && d.validUntil == validUntil
    ensures d.clientName == "" && d.clientAddress == "" && d.clientPhone == "" && d.projectName == ""
  {
    assert Subtotal([EmptyItem(firstId)]) == 0.0 by {
      assert [EmptyItem(firstId)][..0] == [];
    }
    QuotationData(quotationNo, date, validUntil, "", "", "", "", [EmptyItem(firstId)], 7.0,
      DefaultNote, DefaultPaymentTerms)
  }

  /**
   * The editor's state: the quotation it holds, and the `defaultData` the
   * reset button goes back to (computed once, when the module loads).
   */
  class QuotationEditor {
    var data: QuotationData
    var defaults: QuotationData

    /** `useState<QuotationData>(defaultData)`. */
    constructor (quotationNo: string, date: string, validUntil: string, firstId: string)
      ensures data == defaults == DefaultData(quotationNo, date, validUntil, firstId)
    {
      data := DefaultData(quotationNo, date, validUntil, firstId);
      defaults := data;
    }

    /**
     * The reset button: `defaultData` again, dates and first item included,
     * with a quotation number read from the clock now.
     */
    method Reset(quotationNo: string)
      modifies this
      ensures defaults == old(defaults) && data == defaults.(quotationNo := quotationNo)
    {
      data := defaults.(quotationNo := quotationNo);
    }

    method UpdateField(u: FieldUpdate)
      modifies this
      ensures defaults == old(defaults) && data == FieldUpdated(old(data), u)
    {
      data := FieldUpdated(data, u);
    }

    method UpdateItem(id: string, u: ItemUpdate)
      modifies this
      ensures defaults == old(defaults) && data == old(data).(items := ItemsUpdated(old(data).items, id, u))
    {
      data := data.(items := ItemsUpdated(data.items, id, u));
    }

    method AddItem(freshId: string)
      modifies this
      ensures defaults == old(defaults) && data == old(data).(items := ItemAdded(old(data).items, freshId))
    {
      data := data.(items := ItemAdded(data.items, freshId));
    }

    method RemoveItem(id: string)
      modifies this
      ensures defaults == old(defaults) && data == old(data).(items := ItemRemoved(old(data).items, id))
    {
      data := data.(items := ItemRemoved(data.items, id));
    }
  }
}
