/**
 * POS invoice endpoints (abc_pos/api/pos_invoice.py): the input check and
 * column transpose of the bulk item upsert with the totals of its reply,
 * and the invoice upsert with its customer rule, payment replacement and
 * placeholder patch of invoice items.
 *
 * JSON objects are records whose keys may be missing, null or given
 * (`Field`).  The stored procedure, the document save and the session user
 * are calls into the host framework and database; they are parameters.
 */
module PosInvoice {
  import opened Results

  /** One key of a JSON object. */
  datatype Field<T> = Absent | Null | Given(value: T)

  /** `d.get(key, default)`: a missing key gives the default, null stays null (None). */
  function GetOr<T>(f: Field<T>, default: T): (r: Option<T>)
    ensures f.Absent? ==> r == Some(default)
    ensures f.Null? ==> r.None?
    ensures f.Given? ==> r == Some(f.value)
  {
    match f
    case Absent => Some(default)
    case Null => None
    case Given(v) => Some(v)
  }

  predicate TruthyText(f: Field<string>) {
    f.Given? && f.value != ""
  }

  predicate TruthyNumber(f: Field<real>) {
    f.Given? && f.value != 0.0
  }

  // ---------------------------------------------------------------------
  // pos_invoice_item_bulk_upsert: input check (pos_invoice.py:178-186)
  // ---------------------------------------------------------------------

  /** One element of `items`. */
  datatype ItemPayload = ItemPayload(
    name: Field<string>,
    itemCode: Field<string>,
    itemName: Field<string>,
    description: Field<string>,
    uom: Field<string>,
    qty: Field<real>,
    rate: Field<real>,
    amount: Field<real>,
    folioWindow: Field<string>)

  datatype BulkError =
    | NoItems                     // "No items provided"
    | ItemCodeRequired(index: nat) // "Item {index}: item_code is required", 1-based
    | QtyRequired(index: nat)      // "Item {index}: qty is required", 1-based
    | NullNumber                   // float(None) while building the columns
    | AddItemsFailed(message: string) // "Error adding invoice items: {message}"

  /** An item passes the check: a truthy item_code and a qty that is present
      and not null, zero included. */
  predicate ItemValid(it: ItemPayload) {
    TruthyText(it.itemCode) && it.qty.Given?
  }

  /** `e` is the validation error the items deserve: NoItems for an empty
      list, otherwise the first failing item, 1-based, with the item_code
      check made before the qty check. */
  predicate Rejects(items: seq<ItemPayload>, e: BulkError) {
    match e
    case NoItems => items == []
    case ItemCodeRequired(n) =>
      && 1 <= n <= |items| && !TruthyText(items[n - 1].itemCode)
      && forall j :: 0 <= j < n - 1 ==> ItemValid(items[j])
    case QtyRequired(n) =>
      && 1 <= n <= |items| && TruthyText(items[n - 1].itemCode) && !items[n - 1].qty.Given?
      && forall j :: 0 <= j < n - 1 ==> ItemValid(items[j])
    case _ => false
  }

  /** At most one validation error fits a list of items. */
  lemma RejectsUnique(items: seq<ItemPayload>, e1: BulkError, e2: BulkError)
    requires Rejects(items, e1) && Rejects(items, e2)
    ensures e1 == e2
  {
  }

  /** The validation loop.  `error` is None when every item passes, and
      otherwise the error the items deserve. */
  method ValidateItems(items: seq<ItemPayload>) returns (error: Option<BulkError>)
    ensures error == Some(NoItems) <==> items == []
    ensures error.None? <==> items != [] && forall i :: 0 <= i < |items| ==> ItemValid(items[i])
    ensures error.Some? ==> Rejects(items, error.value)
  {
    if items == [] {
      return Some(NoItems);
    }
    var i := 0;
    while i < |items|
      invariant 0 <= i <= |items|
      invariant forall j :: 0 <= j < i ==> ItemValid(items[j])
    {
      var item := items[i];
      if !TruthyText(item.itemCode) {
        return Some(ItemCodeRequired(i + 1));
      }
      if !TruthyNumber(item.qty) && item.qty != Given(0.0) {
        return Some(QtyRequired(i + 1));
      }
      i := i + 1;
    }
    return None;
  }

  // ---------------------------------------------------------------------
  // The json_data transpose (pos_invoice.py:189-199)
  // ---------------------------------------------------------------------

  /** The record of columns sent to the procedure.  A text cell is None when
      the item held null there; a number cell is the float of its value. */
  datatype Columns = Columns(
    names: seq<Option<string>>,
    itemCodes: seq<Option<string>>,
    itemNames: seq<Option<string>>,
    descriptions: seq<Option<string>>,
    uoms: seq<Option<string>>,
    qtys: seq<real>,
    rates: seq<real>,
    amounts: seq<real>,
    folioWindows: seq<Option<string>>)

  /** All nine columns have length `n`. */
  predicate HasRows(c: Columns, n: nat) {
    && |c.names| == n && |c.itemCodes| == n && |c.itemNames| == n && |c.descriptions| == n
    && |c.uoms| == n && |c.qtys| == n && |c.rates| == n && |c.amounts| == n && |c.folioWindows| == n
  }

  /** `i.get(key, "")` */
  function Text(f: Field<string>): Option<string> {
    GetOr(f, "")
  }

  /** `float(i.get(key, 0))`, None when the value is null (a TypeError). */
  function Number(f: Field<real>): Option<real> {
    GetOr(f, 0.0)
  }

  predicate NumbersDefined(it: ItemPayload) {
    Number(it.qty).Some? && Number(it.rate).Some? && Number(it.amount).Some?
  }

  function ToColumns(items: seq<ItemPayload>): (r: Result<Columns, BulkError>)
    ensures r.Err? <==> exists i :: 0 <= i < |items| && !NumbersDefined(items[i])
    ensures r.Err? ==> r.error == NullNumber
    ensures r.Ok? ==> HasRows(r.value, |items|)
  {
    if exists i :: 0 <= i < |items| && !NumbersDefined(items[i]) then Err(NullNumber)
    else
      var n := |items|;
      Ok(Columns(
        seq(n, i requires 0 <= i < n => Text(items[i].name)),
        seq(n, i requires 0 <= i < n => Text(items[i].itemCode)),
        seq(n, i requires 0 <= i < n => Text(items[i].itemName)),
        seq(n, i requires 0 <= i < n => Text(items[i].description)),
        seq(n, i requires 0 <= i < n => Text(items[i].uom)),
        seq(n, i requires 0 <= i < n => Number(items[i].qty).value),
        seq(n, i requires 0 <= i < n => Number(items[i].rate).value),
        seq(n, i requires 0 <= i < n => Number(items[i].amount).value),
        seq(n, i requires 0 <= i < n => Text(items[i].folioWindow))))
  }

  /** A text cell read back as a JSON value. */
  function FieldOf(cell: Option<string>): Field<string> {
    match cell
    case Some(s) => Given(s)
    case None => Null
  }

  /** Zip the columns back into one record per row. */
  function FromColumns(c: Columns, n: nat): (items: seq<ItemPayload>)
    requires HasRows(c, n)
    ensures |items| == n
  {
    seq(n, i requires 0 <= i < n =>
      ItemPayload(FieldOf(c.names[i]), FieldOf(c.itemCodes[i]), FieldOf(c.itemNames[i]),
                  FieldOf(c.descriptions[i]), FieldOf(c.uoms[i]),
                  Given(c.qtys[i]), Given(c.rates[i]), Given(c.amounts[i]),
                  FieldOf(c.folioWindows[i])))
  }

  /** An item with every missing key replaced by the default the transpose uses. */
  function WithDefaults(it: ItemPayload): ItemPayload {
    ItemPayload(FieldOf(Text(it.name)), FieldOf(Text(it.itemCode)), FieldOf(Text(it.itemName)),
                FieldOf(Text(it.description)), FieldOf(Text(it.uom)),
                if it.qty.Absent? then Given(0.0) else it.qty,
                if it.rate.Absent? then Given(0.0) else it.rate,
                if it.amount.Absent? then Given(0.0) else it.amount,
                FieldOf(Text(it.folioWindow)))
  }

  /** Cell i of each column is item i's value for that key, or its default. */
  lemma ColumnCells(items: seq<ItemPayload>, i: nat)
    requires ToColumns(items).Ok? && i < |items|
    ensures var c := ToColumns(items).value;
      && c.names[i] == Text(items[i].name) && c.itemCodes[i] == Text(items[i].itemCode)
      && c.itemNames[i] == Text(items[i].itemName) && c.descriptions[i] == Text(items[i].description)
      && c.uoms[i] == Text(items[i].uom) && c.folioWindows[i] == Text(items[i].folioWindow)
      && Some(c.qtys[i]) == Number(items[i].qty) && Some(c.rates[i]) == Number(items[i].rate)
      && Some(c.amounts[i]) == Number(items[i].amount)
  {
    assert NumbersDefined(items[i]);
  }

  /** Zipping the columns back gives every item with its defaults filled in;
      an item that gives every key comes back unchanged. */
  lemma ItemsRoundTrip(items: seq<ItemPayload>)
    requires ToColumns(items).Ok?
    ensures FromColumns(ToColumns(items).value, |items|) == seq(|items|, i requires 0 <= i < |items| => WithDefaults(items[i]))
    ensures (forall i :: 0 <= i < |items| ==> items[i].qty.Given? && items[i].rate.Given? && items[i].amount.Given? &&
                                               items[i].name != Absent && items[i].itemCode != Absent &&
                                               items[i].itemName != Absent && items[i].description != Absent &&
                                               items[i].uom != Absent && items[i].folioWindow != Absent)
            ==> FromColumns(ToColumns(items).value, |items|) == items
  {
    var back := FromColumns(ToColumns(items).value, |items|);
    forall i | 0 <= i < |items|
      ensures back[i] == WithDefaults(items[i])
    {
      ColumnCells(items, i);
      assert NumbersDefined(items[i]);
    }
  }

  /** Transposing rows built from columns gives the same columns back. */
  lemma ColumnsRoundTrip(c: Columns, n: nat)
    requires HasRows(c, n)
    ensures ToColumns(FromColumns(c, n)) == Ok(c)
  {
    var items := FromColumns(c, n);
    forall i | 0 <= i < n
      ensures NumbersDefined(items[i])
    {
    }
    var d := ToColumns(items).value;
    assert d.names == c.names;
    assert d.itemCodes == c.itemCodes;
    assert d.itemNames == c.itemNames;
    assert d.descriptions == c.descriptions;
    assert d.uoms == c.uoms;
    assert d.qtys == c.qtys;
    assert d.rates == c.rates;
    assert d.amounts == c.amounts;
    assert d.folioWindows == c.folioWindows;
  }

  // ---------------------------------------------------------------------
  // The reply of the procedure (pos_invoice.py:200-223)
  // ---------------------------------------------------------------------

  /** A row returned by the procedure: the two keys the totals read. */
  datatype ReplyRow = ReplyRow(qty: Field<real>, baseAmount: Field<real>)

  datatype Summary = Summary(invoiceId: string, count: nat, totalAmount: real, totalQty: real, items: seq<ReplyRow>)

  /** `sum(float(row.get(key, 0)) for row in rows)`: None when a value is null. */
  function Total(rows: seq<ReplyRow>, amount: bool): (t: Option<real>)
    ensures t.None? <==> exists k :: 0 <= k < |rows| && Number(if amount then rows[k].baseAmount else rows[k].qty).None?
  {
    if rows == [] then Some(0.0)
    else
      var pre := Total(rows[..|rows| - 1], amount);
      var last := rows[|rows| - 1];
      var cell := Number(if amount then last.baseAmount else last.qty);
      assert forall k :: 0 <= k < |rows| - 1 ==> rows[k] == rows[..|rows| - 1][k];
      if pre.None? || cell.None? then None else Some(pre.value + cell.value)
  }

  /** The message of the TypeError float(None) raises. */
  const NoneTypeMessage := "float() argument must be a string or a real number, not 'NoneType'"

  /** The totals and count of the reply. */
  function Summarize(invoiceId: string, rows: seq<ReplyRow>): (r: Result<Summary, BulkError>)
    ensures r.Ok? <==> Total(rows, true).Some? && Total(rows, false).Some?
    ensures r.Err? ==> r.error == AddItemsFailed(NoneTypeMessage)
    ensures r.Ok? ==> r.value.invoiceId == invoiceId && r.value.count == |rows| && r.value.items == rows
    ensures r.Ok? ==> r.value.totalAmount == Total(rows, true).value && r.value.totalQty == Total(rows, false).value
  {
    var amount := Total(rows, true);
    var qty := Total(rows, false);
    if amount.None? || qty.None? then Err(AddItemsFailed(NoneTypeMessage))
    else Ok(Summary(invoiceId, |rows|, amount.value, qty.value, rows))
  }

  /** Totals add up over a split of the reply. */
  lemma {:induction false} TotalAppend(a: seq<ReplyRow>, b: seq<ReplyRow>, amount: bool)
    requires Total(a, amount).Some? && Total(b, amount).Some?
    ensures Total(a + b, amount) == Some(Total(a, amount).value + Total(b, amount).value)
  {
    if b == [] {
      assert a + b == a;
    } else {
      var b' := b[..|b| - 1];
      assert (a + b)[..|a + b| - 1] == a + b';
      assert Total(b', amount).Some?;
      TotalAppend(a, b', amount);
    }
  }

  /** The reply of the two-item example: count 2, total qty 3.0, total amount 220.0. */
  lemma TwoItemExample()
    ensures var rows := [ReplyRow(Given(2.0), Given(100.0)), ReplyRow(Given(1.0), Given(120.0))];
      Summarize("INV-1", rows) == Ok(Summary("INV-1", 2, 220.0, 3.0, rows))
  {
    var rows := [ReplyRow(Given(2.0), Given(100.0)), ReplyRow(Given(1.0), Given(120.0))];
    assert rows[..1] == [rows[0]];
    assert rows[..1][..0] == [];
    assert Total(rows[..1], true) == Some(100.0);
    assert Total(rows[..1], false) == Some(2.0);
    assert Total(rows, true) == Some(220.0);
    assert Total(rows, false) == Some(3.0);
  }

  /** The procedure: given the invoice id, the session user and the columns,
      its result rows or the message of the exception it raised. */
  type Procedure = (string, string, Columns) -> Result<seq<ReplyRow>, string>

  /** pos_invoice_item_bulk_upsert (pos_invoice.py:148-236). */
  method BulkUpsert(invoiceId: string, user: string, items: seq<ItemPayload>, procedure: Procedure)
    returns (r: Result<Summary, BulkError>)
    ensures items == [] ==> r == Err(NoItems)
    ensures r.Ok? ==> items != [] && forall i :: 0 <= i < |items| ==> ItemValid(items[i])
    ensures !(items != [] && forall i :: 0 <= i < |items| ==> ItemValid(items[i])) ==>
      r.Err? && Rejects(items, r.error)
    ensures (items != [] && forall i :: 0 <= i < |items| ==> ItemValid(items[i])) ==>
      r == match ToColumns(items)
           case Err(e) => Err(e)
           case Ok(c) =>
             match procedure(invoiceId, user, c)
             case Err(message) => Err(AddItemsFailed(message))
             case Ok(rows) => Summarize(invoiceId, rows)
  {
    var error := ValidateItems(items);
    if error.Some? {
      return Err(error.value);
    }
    var columns := ToColumns(items);
    if columns.Err? {
      return Err(columns.error);
    }
    var reply := procedure(invoiceId, user, columns.value);
    if reply.Err? {
      return Err(AddItemsFailed(reply.error));
    }
    r := Summarize(invoiceId, reply.value);
  }

  // ---------------------------------------------------------------------
  // pos_invoice_upsert (pos_invoice.py:28-90)
  // ---------------------------------------------------------------------

  /** A JSON value of an invoice header field. */
  datatype Value = Str(s: string) | Num(x: real) | NullValue

  predicate TruthyValue(v: Value) {
    match v
    case Str(s) => s != ""
    case Num(x) => x != 0.0
    case NullValue => false
  }

  /** A POS Invoice Item row; a null text field is None. */
  datatype InvoiceItem = InvoiceItem(itemCode: string, itemName: Option<string>, description: Option<string>, uom: Option<string>, qty: real, rate: real)

  datatype PaymentPayload = PaymentPayload(modeOfPayment: Field<string>, amount: Field<real>, account: Field<string>, folioWindow: Field<string>)

  datatype Payment = Payment(modeOfPayment: string, amount: real, account: Option<string>, folioWindow: Option<string>)

  /** The `invoice` argument: header keys, an optional items table and the payments key. */
  datatype InvoicePayload = InvoicePayload(fields: map<string, Value>, items: Option<seq<InvoiceItem>>, payments: Field<seq<PaymentPayload>>)

  /** A POS Invoice document. */
  datatype Invoice = Invoice(name: string, fields: map<string, Value>, items: seq<InvoiceItem>, payments: seq<Payment>)

  datatype UpsertError =
    | NotADict            // "Invoice payload must be a dict"
    | CustomerRequired    // "Customer is required when creating a new invoice"
    | PaymentInvalid      // "Each payment must have mode_of_payment and amount"
    | SaveFailed(message: string) // the save's exception, re-raised

  /** What doc.save() did: saved, raised MandatoryError, or raised anything else. */
  datatype SaveOutcome = Saved | MandatoryMissing(message: string) | OtherFailure(message: string)

  /** `not invoice`: the dict has no key at all. */
  predicate EmptyPayload(p: InvoicePayload) {
    p.fields == map[] && p.items.None? && p.payments.Absent?
  }

  function Customer(p: InvoicePayload): Value {
    if "customer" in p.fields then p.fields["customer"] else NullValue
  }

  /** `invoice.pop("payments", [])`, read for truthiness: a null list counts as empty. */
  function PaymentList(f: Field<seq<PaymentPayload>>): seq<PaymentPayload> {
    if f.Given? then f.value else []
  }

  predicate PaymentValid(p: PaymentPayload) {
    TruthyText(p.modeOfPayment) && TruthyNumber(p.amount)
  }

  function OptionOf(f: Field<string>): Option<string> {
    if f.Given? then Some(f.value) else None
  }

  function ToPayment(p: PaymentPayload): (pay: Payment)
    requires PaymentValid(p)
    ensures pay.modeOfPayment == p.modeOfPayment.value && pay.amount == p.amount.value && pay.amount != 0.0
  {
    Payment(p.modeOfPayment.value, p.amount.value, OptionOf(p.account), OptionOf(p.folioWindow))
  }

  function ToPayments(ps: seq<PaymentPayload>): (pays: seq<Payment>)
    requires forall i :: 0 <= i < |ps| ==> PaymentValid(ps[i])
    ensures |pays| == |ps|
  {
    seq(|ps|, i requires 0 <= i < |ps| => ToPayment(ps[i]))
  }

  /** A falsy item field: null or empty. */
  predicate Blank(s: Option<string>) {
    s.None? || s.value == ""
  }

  /** The placeholder patch of one item (pos_invoice.py:71-77). */
  function Placeholder(it: InvoiceItem): (r: InvoiceItem)
    ensures !Blank(r.itemName) && !Blank(r.description) && !Blank(r.uom)
    ensures Blank(it.itemName) ==> r.itemName == Some("asd")
    ensures Blank(it.description) ==> r.description == Some("asd")
    ensures Blank(it.uom) ==> r.uom == Some("Unit")
    ensures !Blank(it.itemName) ==> r.itemName == it.itemName
    ensures !Blank(it.description) ==> r.description == it.description
    ensures !Blank(it.uom) ==> r.uom == it.uom
    ensures r.itemCode == it.itemCode && r.qty == it.qty && r.rate == it.rate
  {
    it.(itemName := if Blank(it.itemName) then Some("asd") else it.itemName,
        description := if Blank(it.description) then Some("asd") else it.description,
        uom := if Blank(it.uom) then Some("Unit") else it.uom)
  }

  lemma PlaceholderIdempotent(it: InvoiceItem)
    ensures Placeholder(Placeholder(it)) == Placeholder(it)
  {
  }

  /** The message of a MandatoryError names one of the patched fields. */
  predicate MentionsItemField(message: string) {
    Contains(message, "item_name") || Contains(message, "description") || Contains(message, "uom")
  }

  /** Python's `needle in haystack` on strings. */
  predicate Contains(haystack: string, needle: string)
    decreases |haystack|
  {
    |needle| <= |haystack| && (haystack[..|needle|] == needle || Contains(haystack[1..], needle))
  }

  /** The document after load-or-create, update and payments (steps 1 and 2). */
  function Prepare(existing: Option<Invoice>, invoiceId: string, p: InvoicePayload): Result<Invoice, UpsertError>
  {
    if EmptyPayload(p) then Err(NotADict)
    else if existing.None? && !TruthyValue(Customer(p)) then Err(CustomerRequired)
    else
      var base := if existing.Some? then existing.value else Invoice(invoiceId, map[], [], []);
      var updated := base.(fields := base.fields + p.fields,
                           items := if p.items.Some? then p.items.value else base.items);
      var pays := PaymentList(p.payments);
      if pays == [] then Ok(updated)
      else if exists i :: 0 <= i < |pays| && !PaymentValid(pays[i]) then Err(PaymentInvalid)
      else Ok(updated.(payments := ToPayments(pays)))
  }

  /** The invoice with every item patched. */
  function Patched(inv: Invoice): Invoice {
    inv.(items := seq(|inv.items|, i requires 0 <= i < |inv.items| => Placeholder(inv.items[i])))
  }

  /** The response after step 3 (the save), as written: on the patch path no
      second save follows. */
  function Respond(prepared: Result<Invoice, UpsertError>, save: SaveOutcome): Result<Invoice, UpsertError>
  {
    match prepared
    case Err(e) => Err(e)
    case Ok(inv) =>
      match save
      case Saved => Ok(inv)
      case MandatoryMissing(m) =>
        if MentionsItemField(m) then Ok(Patched(inv)) else Err(SaveFailed(m))
      case OtherFailure(m) => Err(SaveFailed(m))
  }

  /** The table after step 3 as written: only a first save that succeeds stores. */
  function StoredAfter(invoices: map<string, Invoice>, invoiceId: string,
                       prepared: Result<Invoice, UpsertError>, save: SaveOutcome): map<string, Invoice>
  {
    if prepared.Ok? && save.Saved? then invoices[invoiceId := prepared.value] else invoices
  }

  /** Step 3 with the announced retry: after the patch the document is saved
      again, and a failure of that save fails the request. */
  function RespondRetrying(prepared: Result<Invoice, UpsertError>, save: SaveOutcome, retry: SaveOutcome)
    : Result<Invoice, UpsertError>
  {
    match prepared
    case Err(e) => Err(e)
    case Ok(inv) =>
      match save
      case Saved => Ok(inv)
      case MandatoryMissing(m) =>
        if !MentionsItemField(m) then Err(SaveFailed(m))
        else (
          match retry
          case Saved => Ok(Patched(inv))
          case MandatoryMissing(m') => Err(SaveFailed(m'))
          case OtherFailure(m') => Err(SaveFailed(m')))
      case OtherFailure(m) => Err(SaveFailed(m))
  }

  /** The table after step 3 with the retry, from the saves alone: a first
      save that succeeds writes the prepared invoice; a first save that misses
      an item field, followed by a retry that succeeds, writes the patched one;
      any other combination writes nothing. */
  function StoredRetrying(invoices: map<string, Invoice>, invoiceId: string,
                          prepared: Result<Invoice, UpsertError>, save: SaveOutcome, retry: SaveOutcome)
    : map<string, Invoice>
  {
    if prepared.Err? then invoices
    else if save.Saved? then invoices[invoiceId := prepared.value]
    else if save.MandatoryMissing? && MentionsItemField(save.message) && retry.Saved? then
      invoices[invoiceId := Patched(prepared.value)]
    else invoices
  }

  /** Creating an invoice needs a truthy customer; updating one does not. */
  lemma CustomerRule(existing: Option<Invoice>, invoiceId: string, p: InvoicePayload)
    requires !EmptyPayload(p)
    ensures existing.None? ==> (Prepare(existing, invoiceId, p) == Err(CustomerRequired) <==> !TruthyValue(Customer(p)))
    ensures existing.Some? ==> Prepare(existing, invoiceId, p) != Err(CustomerRequired)
  {
  }

  /** A non-empty payments list replaces the payments wholesale, one row per
      input in order; an empty, null or missing one leaves them as they were. */
  lemma PaymentRule(existing: Option<Invoice>, invoiceId: string, p: InvoicePayload)
    requires Prepare(existing, invoiceId, p).Ok?
    ensures var inv := Prepare(existing, invoiceId, p).value;
      var base := if existing.Some? then existing.value.payments else [];
      && (PaymentList(p.payments) == [] ==> inv.payments == base)
      && (PaymentList(p.payments) != [] ==>
            && |inv.payments| == |PaymentList(p.payments)|
            && forall i :: 0 <= i < |inv.payments| ==>
                 PaymentValid(PaymentList(p.payments)[i]) && inv.payments[i] == ToPayment(PaymentList(p.payments)[i]))
  {
    var pays := PaymentList(p.payments);
    if pays != [] {
      assert forall i :: 0 <= i < |pays| ==> PaymentValid(pays[i]);
    }
  }

  /** A payment without a truthy amount, zero included, fails the request. */
  lemma ZeroAmountRejected(existing: Option<Invoice>, invoiceId: string, p: InvoicePayload, k: nat)
    requires !EmptyPayload(p) && (existing.Some? || TruthyValue(Customer(p)))
    requires k < |PaymentList(p.payments)| && PaymentList(p.payments)[k].amount == Given(0.0)
    ensures Prepare(existing, invoiceId, p) == Err(PaymentInvalid)
  {
    assert !PaymentValid(PaymentList(p.payments)[k]);
  }

  /** The patched response leaves every item with a non-blank name,
      description and uom, and touches nothing else. */
  lemma PatchedResponse(inv: Invoice, message: string)
    requires MentionsItemField(message)
    ensures var r := Respond(Ok(inv), MandatoryMissing(message));
      && r.Ok? && r.value.name == inv.name && r.value.fields == inv.fields && r.value.payments == inv.payments
      && |r.value.items| == |inv.items|
      && forall i :: 0 <= i < |inv.items| ==>
           !Blank(r.value.items[i].itemName) && !Blank(r.value.items[i].description) && !Blank(r.value.items[i].uom)
  {
  }

  /** As written, the patch path answers ok with an invoice that is not in the
      table: a new invoice whose only item has no item_name. */
  lemma PatchedButNotStored()
    ensures var items := [InvoiceItem("ITEM-1", None, Some("d"), Some("Unit"), 1.0, 5.0)];
      var p := InvoicePayload(map["customer" := Str("C-1")], Some(items), Absent);
      var prepared := Prepare(None, "INV-1", p);
      var save := MandatoryMissing("item_name");
      && prepared == Ok(Invoice("INV-1", map["customer" := Str("C-1")], items, []))
      && Respond(prepared, save).Ok?
      && "INV-1" !in StoredAfter(map[], "INV-1", prepared, save)
  {
    var fields := map["customer" := Str("C-1")];
    assert map[] + fields == fields;
    assert Customer(InvoicePayload(fields, None, Absent)) == Str("C-1");
    assert "item_name"[..|"item_name"|] == "item_name";
  }

  /** With the retry, an ok answer is always what the table holds afterwards,
      and a failed request writes nothing. */
  lemma RetryingOkIsStored(invoices: map<string, Invoice>, invoiceId: string,
                           prepared: Result<Invoice, UpsertError>, save: SaveOutcome, retry: SaveOutcome)
    ensures var r := RespondRetrying(prepared, save, retry);
      r.Ok? ==> invoiceId in StoredRetrying(invoices, invoiceId, prepared, save, retry) &&
                StoredRetrying(invoices, invoiceId, prepared, save, retry)[invoiceId] == r.value
    ensures RespondRetrying(prepared, save, retry).Err? ==> StoredRetrying(invoices, invoiceId, prepared, save, retry) == invoices
  {
  }

  /** The retry changes nothing but the patch path: a retry that saves gives
      the as-written response, and the table then also holds it. */
  lemma RetryingMatchesAsWritten(invoices: map<string, Invoice>, invoiceId: string,
                                 prepared: Result<Invoice, UpsertError>, save: SaveOutcome)
    ensures RespondRetrying(prepared, save, Saved) == Respond(prepared, save)
    ensures !(save.MandatoryMissing? && MentionsItemField(save.message)) ==>
      StoredRetrying(invoices, invoiceId, prepared, save, Saved) == StoredAfter(invoices, invoiceId, prepared, save)
  {
  }

  /** The framework document being loaded, changed and saved. */
  class InvoiceDoc {
    var name: string
    var fields: map<string, Value>
    var items: seq<InvoiceItem>
    var payments: seq<Payment>

    function AsValue(): Invoice
      reads this
    {
      Invoice(name, fields, items, payments)
    }

    constructor (inv: Invoice)
      ensures AsValue() == inv
    {
      name, fields, items, payments := inv.name, inv.fields, inv.items, inv.payments;
    }

    /** doc.update(invoice): the payload's keys overwrite the document's. */
    method Update(newFields: map<string, Value>, newItems: Option<seq<InvoiceItem>>)
      modifies this
      ensures fields == old(fields) + newFields
      ensures items == if newItems.Some? then newItems.value else old(items)
      ensures name == old(name) && payments == old(payments)
    {
      fields := fields + newFields;
      if newItems.Some? {
        items := newItems.value;
      }
    }

    /** The reset-and-append loop of pos_invoice.py:52-61.  On the first
        invalid payment it stops, leaving the payments appended so far. */
    method ReplacePayments(pays: seq<PaymentPayload>) returns (ok: bool)
      modifies this
      ensures ok <==> forall i :: 0 <= i < |pays| ==> PaymentValid(pays[i])
      ensures ok ==> payments == ToPayments(pays)
      ensures !ok ==> exists k :: (0 <= k < |pays| && !PaymentValid(pays[k]) &&
        (forall j :: 0 <= j < k ==> PaymentValid(pays[j])) && payments == ToPayments(pays[..k]))
      ensures name == old(name) && fields == old(fields) && items == old(items)
    {
      payments := [];
      var i := 0;
      while i < |pays|
        invariant 0 <= i <= |pays|
        invariant forall j :: 0 <= j < i ==> PaymentValid(pays[j])
        invariant payments == ToPayments(pays[..i])
        invariant name == old(name) && fields == old(fields) && items == old(items)
      {
        var pay := pays[i];
        if !TruthyText(pay.modeOfPayment) || !TruthyNumber(pay.amount) {
          return false;
        }
        payments := payments + [Payment(pay.modeOfPayment.value, pay.amount.value, OptionOf(pay.account), OptionOf(pay.folioWindow))];
        i := i + 1;
      }
      assert pays[..|pays|] == pays;
      return true;
    }

    /** The in-place patch loop of pos_invoice.py:71-77. */
    method PatchMissingItemFields()
      modifies this
      ensures |items| == |old(items)|
      ensures forall i :: 0 <= i < |items| ==> items[i] == Placeholder(old(items)[i])
      ensures name == old(name) && fields == old(fields) && payments == old(payments)
    {
      var j := 0;
      while j < |items|
        invariant 0 <= j <= |items| && |items| == |old(items)|
        invariant forall i :: 0 <= i < j ==> items[i] == Placeholder(old(items)[i])
        invariant forall i :: j <= i < |items| ==> items[i] == old(items)[i]
        invariant name == old(name) && fields == old(fields) && payments == old(payments)
      {
        var it := items[j];
        if Blank(it.itemName) {
          it := it.(itemName := Some("asd"));
        }
        if Blank(it.description) {
          it := it.(description := Some("asd"));
        }
        if Blank(it.uom) {
          it := it.(uom := Some("Unit"));
        }
        items := items[j := it];
        j := j + 1;
      }
    }
  }

  /** Steps 1 and 2 of pos_invoice_upsert (pos_invoice.py:30-61) on a fresh
      document: the stored invoice when `existing` holds one, a new one otherwise. */
  method LoadAndApply(existing: Option<Invoice>, invoiceId: string, p: InvoicePayload)
    returns (r: Result<InvoiceDoc, UpsertError>)
    ensures r.Ok? ==> fresh(r.value) && Prepare(existing, invoiceId, p) == Ok(r.value.AsValue())
    ensures r.Err? ==> Prepare(existing, invoiceId, p) == Err(r.error)
  {
    if EmptyPayload(p) {
      return Err(NotADict);
    }
    var pays := PaymentList(p.payments);
    var doc: InvoiceDoc;
    if existing.Some? {
      doc := new InvoiceDoc(existing.value);
    } else {
      if !TruthyValue(Customer(p)) {
        return Err(CustomerRequired);
      }
      doc := new InvoiceDoc(Invoice(invoiceId, map[], [], []));
    }
    doc.Update(p.fields, p.items);
    if pays != [] {
      var ok := doc.ReplacePayments(pays);
      if !ok {
        return Err(PaymentInvalid);
      }
    }
    return Ok(doc);
  }

  /** The POS Invoice table. */
  class InvoiceStore {
    var invoices: map<string, Invoice>

    ghost predicate Valid()
      reads this
    {
      forall id :: id in invoices ==> invoices[id].name == id
    }

    constructor ()
      ensures invoices == map[] && Valid()
    {
      invoices := map[];
    }

    /** pos_invoice_upsert.  The document is stored only when the save
        succeeds; on the patch path the response carries the patched items
        but nothing is stored, since no second save follows. */
    method Upsert(invoiceId: string, p: InvoicePayload, save: SaveOutcome) returns (r: Result<Invoice, UpsertError>)
      requires Valid()
      modifies this
      ensures Valid()
      ensures var existing := if invoiceId in old(invoices) then Some(old(invoices)[invoiceId]) else None;
        r == Respond(Prepare(existing, invoiceId, p), save)
      ensures var existing := if invoiceId in old(invoices) then Some(old(invoices)[invoiceId]) else None;
        var prepared := Prepare(existing, invoiceId, p);
        invoices == StoredAfter(old(invoices), invoiceId, prepared, save)
    {
      var existing := if invoiceId in invoices then Some(invoices[invoiceId]) else None;
      var prepared := LoadAndApply(existing, invoiceId, p);
      if prepared.Err? {
        return Err(prepared.error);
      }
      var doc := prepared.value;
      match save
      case Saved =>
        invoices := invoices[invoiceId := doc.AsValue()];
        r := Ok(doc.AsValue());
      case MandatoryMissing(message) =>
        if MentionsItemField(message) {
          ghost var before := doc.AsValue();
          doc.PatchMissingItemFields();
          assert doc.items == seq(|before.items|, i requires 0 <= i < |before.items| => Placeholder(before.items[i]));
          r := Ok(doc.AsValue());
        } else {
          r := Err(SaveFailed(message));
        }
      case OtherFailure(message) =>
        r := Err(SaveFailed(message));
    }

    /** pos_invoice_upsert with the retry save after the patch; `retry` is
        what that second save does. */
    method UpsertRetrying(invoiceId: string, p: InvoicePayload, save: SaveOutcome, retry: SaveOutcome)
      returns (r: Result<Invoice, UpsertError>)
      requires Valid()
      modifies this
      ensures Valid()
      ensures var existing := if invoiceId in old(invoices) then Some(old(invoices)[invoiceId]) else None;
        r == RespondRetrying(Prepare(existing, invoiceId, p), save, retry)
      ensures var existing := if invoiceId in old(invoices) then Some(old(invoices)[invoiceId]) else None;
        invoices == StoredRetrying(old(invoices), invoiceId, Prepare(existing, invoiceId, p), save, retry)
      ensures r.Ok? ==> invoiceId in invoices && invoices[invoiceId] == r.value
    {
      var existing := if invoiceId in invoices then Some(invoices[invoiceId]) else None;
      var prepared := LoadAndApply(existing, invoiceId, p);
      if prepared.Err? {
        return Err(prepared.error);
      }
      var doc := prepared.value;
      match save {
      case Saved =>
        invoices := invoices[invoiceId := doc.AsValue()];
        r := Ok(doc.AsValue());
      case MandatoryMissing(message) =>
        if !MentionsItemField(message) {
          return Err(SaveFailed(message));
        }
        ghost var before := doc.AsValue();
        doc.PatchMissingItemFields();
        assert doc.AsValue() == Patched(before);
        match retry {
        case Saved =>
          invoices := invoices[invoiceId := doc.AsValue()];
          r := Ok(doc.AsValue());
        case MandatoryMissing(message') =>
          r := Err(SaveFailed(message'));
        case OtherFailure(message') =>
          r := Err(SaveFailed(message'));
        }
      case OtherFailure(message) =>
        r := Err(SaveFailed(message));
      }
    }
  }
}
