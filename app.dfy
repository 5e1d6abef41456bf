/**
 * The record-shaping and selection rules of app.py: table rows flattened from
 * nested or legacy invoices, rows chosen by a submit button and checkboxes,
 * the tenant filter of the invoice listing, the fields projected from an
 * extraction, and the name of the saved JSON file.
 */
module App {
  import opened Optional
  import opened Text
  import opened JsonValues
  import VectorStore
  import GeminiExtractor

  /** The eight invoice fields a table row copies. */
  const RowFields: set<string> :=
    {"invoice_number", "date", "due_date", "company_name", "email", "phone", "customer_name", "total"}

  /** The keys of every table row. */
  const RowKeys: set<string> := RowFields + {"image_url", "timestamp"}

  /** The ten-key row dictionary of table_page. */
  function Row(fields: Record, imageUrl: Json, timestamp: Json): (row: Record)
    ensures row.Keys == RowKeys
    ensures forall f :: f in RowFields ==> row[f] == Get(fields, f, Empty)
    ensures row["image_url"] == imageUrl && row["timestamp"] == timestamp
  {
    assert "image_url" !in RowFields && "timestamp" !in RowFields;
    map key | key in RowKeys ::
      if key == "image_url" then imageUrl
      else if key == "timestamp" then timestamp
      else Get(fields, key, Empty)
  }

  /**
   * One table row of table_page. An invoice with a "data" key is the nested
   * shape: fields come from that dictionary and the image URL from the
   * filename. Otherwise the invoice is the legacy flat shape. None where
   * "data" holds something other than a dictionary, whose `.get` raises.
   */
  function FlattenInvoice(invoice: Record): (row: Option<Record>)
    ensures row.Some? <==> "data" !in invoice || invoice["data"].Obj?
    ensures row.Some? ==> row.value.Keys == RowKeys
    ensures row.Some? ==> forall f :: f in RowFields ==>
      row.value[f] == Get(if "data" in invoice then invoice["data"].fields else invoice, f, Empty)
    ensures row.Some? && "data" in invoice ==>
      row.value["image_url"] == Str("/uploads/" + PyStr(Get(invoice, "filename", Empty)))
    ensures row.Some? && "data" !in invoice ==> row.value["image_url"] == Get(invoice, "image_url", Empty)
    ensures row.Some? ==> row.value["timestamp"] == Get(invoice, "timestamp", Empty)
  {
    if "data" in invoice && !invoice["data"].Obj? then None
    else if "data" in invoice then
      Some(Row(invoice["data"].fields, Str("/uploads/" + PyStr(Get(invoice, "filename", Empty))),
               Get(invoice, "timestamp", Empty)))
    else
      Some(Row(invoice, Get(invoice, "image_url", Empty), Get(invoice, "timestamp", Empty)))
  }

  /**
   * The loop of table_page: one row per invoice, in order. None where some
   * invoice cannot be flattened; the request then fails.
   */
  method TableRows(invoices: seq<Record>) returns (rows: Option<seq<Record>>)
    ensures rows.Some? <==> forall i :: 0 <= i < |invoices| ==> FlattenInvoice(invoices[i]).Some?
    ensures rows.Some? ==> |rows.value| == |invoices|
    ensures rows.Some? ==> forall i :: 0 <= i < |invoices| ==> FlattenInvoice(invoices[i]) == Some(rows.value[i])
  {
    var built: seq<Record> := [];
    var i := 0;
    while i < |invoices|
      invariant 0 <= i <= |invoices| && |built| == i
      invariant forall j :: 0 <= j < i ==> FlattenInvoice(invoices[j]) == Some(built[j])
    {
      var row := FlattenInvoice(invoices[i]);
      if row.None? {
        return None;
      }
      assert forall j :: 0 <= j < i ==> (built + [row.value])[j] == built[j];
      built := built + [row.value];
      i := i + 1;
    }
    rows := Some(built);
  }

  /**
   * A ledger record shown in the table (a semantic-search hit): it flattens
   * exactly when its invoice data is a dictionary, its fields come from that
   * dictionary and its image URL is built from the stored filename.
   */
  lemma {:induction false} FlattenLedgerEntry(e: VectorStore.Entry)
    ensures FlattenInvoice(e.AsRecord()).Some? <==> e.data.Obj?
    ensures e.data.Obj? ==>
      && FlattenInvoice(e.AsRecord()).value["image_url"] == Str("/uploads/" + e.filename)
      && FlattenInvoice(e.AsRecord()).value["timestamp"] == Str(e.timestamp)
      && forall f :: f in RowFields ==> FlattenInvoice(e.AsRecord()).value[f] == Get(e.data.fields, f, Empty)
  {
  }

  /** The pages submit_selected can answer with. */
  datatype SubmitResponse =
    | NoInvoiceData
    | InvalidSubmissionIndex
    | NoValidSelection
    | Submitted(rows: seq<Record>)

  /**
   * The row named by the submit button among n rows: None where int() raises,
   * no position when the button is absent or names a row out of range.
   */
  function ButtonPosition(n: nat, submitIndex: Option<string>): (r: Option<seq<nat>>)
    ensures r.None? <==> submitIndex.Some? && ParseInt(submitIndex.value).None?
    ensures r.Some? ==> |r.value| <= 1 && forall k :: 0 <= k < |r.value| ==> r.value[k] < n
    ensures r.Some? && submitIndex.Some? && 0 <= ParseInt(submitIndex.value).value < n ==>
      r.value == [ParseInt(submitIndex.value).value as nat]
    ensures r.Some? && (submitIndex.None? || !(0 <= ParseInt(submitIndex.value).value < n)) ==> r.value == []
  {
    if submitIndex.None? then Some([])
    else
      match ParseInt(submitIndex.value)
      case None => None
      case Some(i) => if 0 <= i < n then Some([i as nat]) else Some([])
  }

  /** The checkbox positions among n rows that parse and are in range, in order, duplicates kept. */
  function CheckboxPositions(n: nat, selected: seq<string>): (ps: seq<nat>)
    ensures |ps| <= |selected|
    ensures forall k :: 0 <= k < |ps| ==> ps[k] < n
  {
    if selected == [] then []
    else
      var p := ParseInt(selected[0]);
      (if p.Some? && 0 <= p.value < n then [p.value as nat] else []) + CheckboxPositions(n, selected[1..])
  }

  /** A position is chosen by the checkboxes exactly when some checkbox value parses to it and it is in range. */
  lemma {:induction false} CheckboxPositionsMembers(n: nat, selected: seq<string>, p: nat)
    ensures p in CheckboxPositions(n, selected) <==>
      p < n && exists j :: 0 <= j < |selected| && ParseInt(selected[j]) == Some(p as int)
  {
    if selected != [] {
      CheckboxPositionsMembers(n, selected[1..], p);
      if p < n && ParseInt(selected[0]) != Some(p as int) {
        if j :| 0 <= j < |selected| && ParseInt(selected[j]) == Some(p as int) {
          assert selected[1..][j - 1] == selected[j];
        }
      }
      if p in CheckboxPositions(n, selected[1..]) {
        var j :| 0 <= j < |selected[1..]| && ParseInt(selected[1..][j]) == Some(p as int);
        assert selected[j + 1] == selected[1..][j];
      }
    }
  }

  /** Checkbox positions keep the order of the checkbox values: a split list selects piecewise. */
  lemma {:induction false} CheckboxPositionsAppend(n: nat, a: seq<string>, b: seq<string>)
    ensures CheckboxPositions(n, a + b) == CheckboxPositions(n, a) + CheckboxPositions(n, b)
  {
    if a == [] {
      assert a + b == b;
    } else {
      assert (a + b)[1..] == a[1..] + b;
      CheckboxPositionsAppend(n, a[1..], b);
    }
  }

  /** The position one checkbox value selects: its parsed value when that is in range, and none otherwise. */
  lemma {:induction false} CheckboxPositionsSingle(n: nat, value: string)
    ensures CheckboxPositions(n, [value]) ==
      if ParseInt(value).Some? && 0 <= ParseInt(value).value < n then [ParseInt(value).value as nat] else []
  {
    assert [value][1..] == [];
  }

  /** The (k+1)-th checkbox value adds its own position, and its row, to those of the first k. */
  lemma {:induction false} CheckboxStep(table: seq<Record>, selected: seq<string>, k: nat)
    requires k < |selected|
    ensures CheckboxPositions(|table|, selected[..k + 1])
         == CheckboxPositions(|table|, selected[..k]) + CheckboxPositions(|table|, [selected[k]])
    ensures Pick(table, CheckboxPositions(|table|, selected[..k + 1]))
         == Pick(table, CheckboxPositions(|table|, selected[..k])) + Pick(table, CheckboxPositions(|table|, [selected[k]]))
  {
    var before, value := selected[..k], [selected[k]];
    assert selected[..k + 1] == before + value;
    CheckboxPositionsAppend(|table|, before, value);
    PickAppend(table, CheckboxPositions(|table|, before), CheckboxPositions(|table|, value));
  }

  /** The rows at the given positions, in order. */
  function Pick(table: seq<Record>, ps: seq<nat>): (rows: seq<Record>)
    requires forall k :: 0 <= k < |ps| ==> ps[k] < |table|
    ensures |rows| == |ps| && forall k :: 0 <= k < |ps| ==> rows[k] == table[ps[k]]
  {
    seq(|ps|, k requires 0 <= k < |ps| => table[ps[k]])
  }

  /**
   * The positions submit_selected picks among n rows: the submit-button row
   * first, then the checkbox rows. None where the button's index does not parse.
   */
  function SubmittedPositions(n: nat, submitIndex: Option<string>, selected: seq<string>): (ps: Option<seq<nat>>)
    ensures ps.None? <==> ButtonPosition(n, submitIndex).None?
    ensures ps.Some? ==> forall k :: 0 <= k < |ps.value| ==> ps.value[k] < n
  {
    match ButtonPosition(n, submitIndex)
    case None => None
    case Some(head) => Some(head + CheckboxPositions(n, selected))
  }

  /**
   * submit_selected over the invoices of the store: the submit-button row
   * first, then the checkbox rows in the order given.
   */
  method SubmitSelected(tableData: seq<Record>, submitIndex: Option<string>, selected: seq<string>)
    returns (response: SubmitResponse)
    ensures |tableData| == 0 ==> response == NoInvoiceData
    ensures |tableData| > 0 && SubmittedPositions(|tableData|, submitIndex, selected).None? ==>
      response == InvalidSubmissionIndex
    ensures |tableData| > 0 && SubmittedPositions(|tableData|, submitIndex, selected) == Some([]) ==>
      response == NoValidSelection
    ensures |tableData| > 0 && SubmittedPositions(|tableData|, submitIndex, selected).Some?
            && SubmittedPositions(|tableData|, submitIndex, selected).value != []
      ==> response == Submitted(Pick(tableData, SubmittedPositions(|tableData|, submitIndex, selected).value))
    ensures response.Submitted? ==> response.rows != [] && forall r :: r in response.rows ==> r in tableData
  {
    var n := |tableData|;
    if n == 0 {
      return NoInvoiceData;
    }
    var button := ButtonRow(tableData, submitIndex);
    if button.None? {
      return InvalidSubmissionIndex;
    }
    var submitted := button.value;
    var checked := CheckboxRows(tableData, selected);
    submitted := submitted + checked;
    PickAppend(tableData, ButtonPosition(n, submitIndex).value, CheckboxPositions(n, selected));
    if submitted == [] {
      return NoValidSelection;
    }
    response := Submitted(submitted);
  }

  /**
   * The submit-button part of submit_selected: no row without a button
   * index, the row at the parsed index when it is in range, and None where
   * the index does not parse.
   */
  method ButtonRow(tableData: seq<Record>, submitIndex: Option<string>) returns (row: Option<seq<Record>>)
    ensures row.None? <==> ButtonPosition(|tableData|, submitIndex).None?
    ensures row.Some? ==> row.value == Pick(tableData, ButtonPosition(|tableData|, submitIndex).value)
  {
    if submitIndex.None? {
      return Some([]);
    }
    var index := ParseInt(submitIndex.value);
    if index.None? {
      return None;
    }
    if 0 <= index.value < |tableData| {
      row := Some([tableData[index.value]]);
    } else {
      row := Some([]);
    }
  }

  /** The loop of submit_selected over the checkbox values. */
  method CheckboxRows(tableData: seq<Record>, selected: seq<string>) returns (rows: seq<Record>)
    ensures rows == Pick(tableData, CheckboxPositions(|tableData|, selected))
  {
    rows := [];
    var k := 0;
    while k < |selected|
      invariant 0 <= k <= |selected|
      invariant rows == Pick(tableData, CheckboxPositions(|tableData|, selected[..k]))
    {
      var row := CheckboxRow(tableData, selected[k]);
      CheckboxStep(tableData, selected, k);
      rows := rows + row;
      k := k + 1;
    }
    assert selected[..k] == selected;
  }

  /** One pass of the loop of submit_selected: the row one checkbox value selects, if any. */
  method CheckboxRow(tableData: seq<Record>, value: string) returns (row: seq<Record>)
    ensures row == Pick(tableData, CheckboxPositions(|tableData|, [value]))
  {
    row := [];
    var i := ParseInt(value);
    if i.Some? && 0 <= i.value < |tableData| {
      row := [tableData[i.value]];
    }
    CheckboxPositionsSingle(|tableData|, value);
  }

  lemma {:induction false} PickAppend(table: seq<Record>, a: seq<nat>, b: seq<nat>)
    requires forall k :: 0 <= k < |a| ==> a[k] < |table|
    requires forall k :: 0 <= k < |b| ==> b[k] < |table|
    ensures forall k :: 0 <= k < |a + b| ==> (a + b)[k] < |table|
    ensures Pick(table, a + b) == Pick(table, a) + Pick(table, b)
  {
  }

  /** The invoice's "tenant_id" is the string `tenantId`. */
  predicate BelongsTo(invoice: Record, tenantId: string) {
    Get(invoice, "tenant_id", Null) == Str(tenantId)
  }

  /**
   * The list comprehension of get_all_invoices: the invoices of one tenant.
   * Each invoice occurs in the result as often as in the input when it
   * belongs to the tenant, and not at all otherwise.
   */
  function FilterByTenant(invoices: seq<Record>, tenantId: string): (r: seq<Record>)
    ensures |r| <= |invoices|
    ensures forall inv :: multiset(r)[inv] == if BelongsTo(inv, tenantId) then multiset(invoices)[inv] else 0
    ensures forall inv :: inv in r <==> inv in invoices && BelongsTo(inv, tenantId)
  {
    if invoices == [] then []
    else
      assert invoices == [invoices[0]] + invoices[1..];
      (if BelongsTo(invoices[0], tenantId) then [invoices[0]] else []) + FilterByTenant(invoices[1..], tenantId)
  }

  /** The filter keeps input order: filtering a concatenation concatenates the filtered parts. */
  lemma {:induction false} FilterByTenantAppend(a: seq<Record>, b: seq<Record>, tenantId: string)
    ensures FilterByTenant(a + b, tenantId) == FilterByTenant(a, tenantId) + FilterByTenant(b, tenantId)
  {
    if a == [] {
      assert a + b == b;
    } else {
      var head := if BelongsTo(a[0], tenantId) then [a[0]] else [];
      assert (a + b)[0] == a[0] && (a + b)[1..] == a[1..] + b;
      assert FilterByTenant(a + b, tenantId) == head + FilterByTenant(a[1..] + b, tenantId);
      FilterByTenantAppend(a[1..], b, tenantId);
      var rest, tail := FilterByTenant(a[1..], tenantId), FilterByTenant(b, tenantId);
      assert FilterByTenant(a, tenantId) == head + rest;
      ConcatAssociative(head, rest, tail);
    }
  }

  lemma {:induction false} ConcatAssociative<T>(a: seq<T>, b: seq<T>, c: seq<T>)
    ensures a + (b + c) == (a + b) + c
  {
  }

  /** Filtering the saved ledger by tenant is saving that tenant's entries. */
  lemma {:induction false} FilterLedgerByTenant(ledger: seq<VectorStore.Entry>, tenantId: string)
    ensures FilterByTenant(VectorStore.Snapshot(ledger), tenantId) == VectorStore.Snapshot(VectorStore.EntriesOf(ledger, tenantId))
  {
    if ledger != [] {
      FilterLedgerByTenant(ledger[1..], tenantId);
      var s := VectorStore.Snapshot(ledger);
      assert s[0] == ledger[0].AsRecord();
      assert s[1..] == VectorStore.Snapshot(ledger[1..]);
      assert BelongsTo(s[0], tenantId) <==> ledger[0].tenantId == tenantId;
      var head := if ledger[0].tenantId == tenantId then [ledger[0]] else [];
      VectorStore.SnapshotAppend(head, VectorStore.EntriesOf(ledger[1..], tenantId));
      assert VectorStore.Snapshot(head) == if ledger[0].tenantId == tenantId then [s[0]] else [];
    }
  }

  /** What json.load finds in invoices.json. */
  datatype LedgerFile = Absent | Malformed | Loaded(invoices: seq<Record>)

  /** The answers of get_all_invoices. */
  datatype InvoiceListing =
    | NoInvoicesFound
    | InvalidJsonFormat
    | Listing(totalInvoices: nat, data: seq<Record>)

  /**
   * get_all_invoices: the stored invoices, narrowed to one tenant when a
   * non-empty tenant_id is given; total_invoices counts what is returned.
   */
  function AllInvoices(file: LedgerFile, tenantArg: Option<string>): (r: InvoiceListing)
    ensures file.Absent? <==> r.NoInvoicesFound?
    ensures file.Malformed? <==> r.InvalidJsonFormat?
    ensures r.Listing? ==> r.totalInvoices == |r.data|
    ensures file.Loaded? && (tenantArg.None? || tenantArg.value == "") ==> r.Listing? && r.data == file.invoices
    ensures file.Loaded? && tenantArg.Some? && tenantArg.value != "" ==>
      && r.Listing?
      && r.data == FilterByTenant(file.invoices, tenantArg.value)
      && forall inv ::
           multiset(r.data)[inv] == if BelongsTo(inv, tenantArg.value) then multiset(file.invoices)[inv] else 0
  {
    match file
    case Absent => NoInvoicesFound
    case Malformed => InvalidJsonFormat
    case Loaded(invoices) =>
      var filtered := if tenantArg.Some? && tenantArg.value != "" then FilterByTenant(invoices, tenantArg.value) else invoices;
      Listing(|filtered|, filtered)
  }

  /** The fields /mobile-upload copies out of an extraction. */
  const ProjectedFields: set<string> :=
    {"invoice_number", "date", "due_date", "company_name", "company_address", "email", "phone",
     "customer_name", "billing_address", "shipping_address", "subtotal", "discount", "tax", "total"}

  /**
   * The row_data of /mobile-upload: every projected field of the extracted
   * dictionary with "" for a missing one, plus the image URL and a timestamp
   * (strftime "%Y-%m-%d %H:%M:%S", given here).
   */
  function ExtractedRow(jsonData: Record, filename: string, timestamp: string): (row: Record)
    ensures row.Keys == ProjectedFields + {"image_url", "timestamp"}
    ensures forall f :: f in ProjectedFields ==> row[f] == Get(jsonData, f, Empty)
    ensures row["image_url"] == Str("/uploads/" + filename) && row["timestamp"] == Str(timestamp)
  {
    assert "image_url" !in ProjectedFields && "timestamp" !in ProjectedFields;
    map key | key in ProjectedFields + {"image_url", "timestamp"} ::
      if key == "image_url" then Str("/uploads/" + filename)
      else if key == "timestamp" then Str(timestamp)
      else Get(jsonData, key, Empty)
  }

  /** How /mobile-upload handles what extract_invoice_fields returned, up to the projected row. */
  datatype UploadStep =
    | UnexpectedResponseType
    | FailedToParseResponse
    | NotADictionary
    | RowReady(row: Record)

  /**
   * A dictionary is used as it is, a string goes through json.loads (given as
   * `loads`), anything else is an unexpected type; the projection then needs
   * a dictionary.
   */
  function UploadRow(result: GeminiExtractor.Extraction, loads: string -> Option<Json>, filename: string, timestamp: string)
    : (step: UploadStep)
    ensures result.Parsed? && result.value.Obj? ==> step == RowReady(ExtractedRow(result.value.fields, filename, timestamp))
    ensures result.Unparsed? && loads(result.text).None? ==> step == FailedToParseResponse
    ensures step == UnexpectedResponseType <==> result.Parsed? && !result.value.Obj? && !result.value.Str?
    ensures result.Parsed? && result.value.Str? && loads(result.value.s).None? ==> step == FailedToParseResponse
    ensures result.Parsed? && result.value.Str? && loads(result.value.s).Some? ==>
      step == if loads(result.value.s).value.Obj?
              then RowReady(ExtractedRow(loads(result.value.s).value.fields, filename, timestamp))
              else NotADictionary
    ensures result.Unparsed? && loads(result.text).Some? ==>
      step == if loads(result.text).value.Obj?
              then RowReady(ExtractedRow(loads(result.text).value.fields, filename, timestamp))
              else NotADictionary
    ensures step.RowReady? ==> exists m :: step.row == ExtractedRow(m, filename, timestamp)
  {
    var value := match result case Parsed(v) => v case Unparsed(t) => Str(t);
    match value
    case Obj(m) => RowReady(ExtractedRow(m, filename, timestamp))
    case Str(s) =>
      (match loads(s)
       case None => FailedToParseResponse
       case Some(Obj(m)) => RowReady(ExtractedRow(m, filename, timestamp))
       case Some(_) => NotADictionary)
    case _ => UnexpectedResponseType
  }

  /** A reply the extractor could not parse cannot be parsed by the upload route either. */
  lemma {:induction false} UnparsedReplyFailsUpload(reply: string, loads: string -> Option<Json>, filename: string, timestamp: string)
    ensures var text := GeminiExtractor.Repaired(GeminiExtractor.StripFences(reply));
      loads(text).None? ==> UploadRow(GeminiExtractor.Unparsed(text), loads, filename, timestamp) == FailedToParseResponse
  {
  }

  /**
   * `filename.rsplit(".", 1)[0] + ".json"`: the text after the last dot is
   * replaced by "json"; a name without a dot gains ".json".
   */
  function JsonFileName(filename: string): (name: string)
    ensures |name| >= 5 && name[|name| - 5..] == ".json"
    ensures name[..|name| - 5] <= filename
    ensures '.' !in filename ==> name[..|name| - 5] == filename
    ensures '.' in filename ==>
      |name| - 5 < |filename| && filename[|name| - 5] == '.' && '.' !in filename[|name| - 4..]
  {
    var base := match LastIndexOf(filename, '.') case None => filename case Some(k) => filename[..k];
    var name := base + ".json";
    assert name[..|name| - 5] == base;
    name
  }

  /** Deriving the JSON name of a JSON name changes nothing. */
  lemma {:induction false} JsonFileNameIdempotent(filename: string)
    ensures JsonFileName(JsonFileName(filename)) == JsonFileName(filename)
  {
    var name := JsonFileName(filename);
    var stem := name[..|name| - 5];
    assert name == stem + ".json";
    assert name[|stem|] == '.' && name[|stem| + 1..] == "json";
    LastIndexOfUnique(name, '.', |stem|);
  }
}
