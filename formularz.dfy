/**
 * The installer and seller forms: the required-field checks that gate every write, the
 * shape of the measurement payload, the seller's completion and the data handed to the
 * PDF, picking a form from the worklist, the QR payload and the skirting-board total.
 */
module Formularz {
  import opened Values
  import opened DocStore
  import opened FirebaseConfig

  /** The two order kinds the forms handle, and their collections. */
  datatype FormKind = Door | Floor

  function CollectionOf(kind: FormKind): string {
    match kind
    case Door => "drzwi"
    case Floor => "podlogi"
  }

  /** The installer's required fields. */
  function MeasurementRequired(kind: FormKind): seq<string> {
    match kind
    case Door => ["pomieszczenie", "telefon", "szerokosc_otworu", "wysokosc_otworu"]
    case Floor => ["pomieszczenie", "telefon"]
  }

  /** The seller-owned fields a measurement payload starts empty. */
  function SellerBlanks(kind: FormKind): seq<string> {
    match kind
    case Door => ["producent", "seria", "typ", "rodzaj_okleiny", "ilosc_szyb", "zamek", "szyba",
                  "wentylacja", "klamka", "opcje_dodatkowe", "uwagi_klienta"]
    case Floor => ["rodzaj_podlogi", "seria", "kolor", "folia", "listwa_przypodlogowa", "uwagi"]
  }

  /** The seller's required fields. */
  function SellerRequired(kind: FormKind): seq<string> {
    match kind
    case Door => ["producent", "seria"]
    case Floor => ["rodzaj_podlogi", "seria"]
  }

  // ---------------------------------------------------------------------------
  // Required fields
  // ---------------------------------------------------------------------------

  /** `[pole for pole in required if not data.get(pole)]`. */
  function MissingFields(data: Record, required: seq<string>): (r: seq<string>)
    ensures forall k :: k in r <==> k in required && !Has(data, k)
    ensures |r| <= |required|
  {
    if required == [] then []
    else
      MissingFields(data, required[..|required| - 1])
      + (if Has(data, required[|required| - 1]) then [] else [required[|required| - 1]])
  }

  /** The check keeps the order of the required list: it distributes over concatenation. */
  lemma {:induction false} MissingFieldsAppend(data: Record, a: seq<string>, b: seq<string>)
    ensures MissingFields(data, a + b) == MissingFields(data, a) + MissingFields(data, b)
  {
    if b == [] {
      assert a + b == a;
    } else {
      var init, last := b[..|b| - 1], b[|b| - 1];
      var tail := if Has(data, last) then [] else [last];
      assert (a + b)[..|a + b| - 1] == a + init;
      assert (a + b)[|a + b| - 1] == last;
      MissingFieldsAppend(data, a, init);
      assert MissingFields(data, a + b) == MissingFields(data, a + init) + tail;
      assert MissingFields(data, b) == MissingFields(data, init) + tail;
    }
  }

  // ---------------------------------------------------------------------------
  // Measurement payload
  // ---------------------------------------------------------------------------

  /** `dane_pomiary`: the installer's inputs, and every seller-owned field set to "". */
  function MeasurementPayload(measured: Record, kind: FormKind): (r: Record)
    ensures r.Keys == measured.Keys + set k | k in SellerBlanks(kind)
    ensures forall k :: k in SellerBlanks(kind) ==> r[k] == Str("")
    ensures forall k :: k in measured && k !in SellerBlanks(kind) ==> r[k] == measured[k]
  {
    measured + map k | k in SellerBlanks(kind) :: Str("")
  }

  /**
   * The blanks neither satisfy nor hide a required installer field, and they leave every
   * required seller field missing until the seller fills it in.
   */
  lemma PayloadChecks(measured: Record, kind: FormKind)
    ensures MissingFields(MeasurementPayload(measured, kind), MeasurementRequired(kind))
            == MissingFields(measured, MeasurementRequired(kind))
    ensures MissingFields(MeasurementPayload(measured, kind), SellerRequired(kind)) == SellerRequired(kind)
  {
    PayloadKeepsInstallerFields(measured, kind);
    PayloadBlanksSellerFields(measured, kind);
  }

  lemma PayloadKeepsInstallerFields(measured: Record, kind: FormKind)
    ensures MissingFields(MeasurementPayload(measured, kind), MeasurementRequired(kind))
            == MissingFields(measured, MeasurementRequired(kind))
  {
    var p := MeasurementPayload(measured, kind);
    forall k | k in MeasurementRequired(kind)
      ensures Has(p, k) <==> Has(measured, k)
    {
      assert k !in SellerBlanks(kind);
    }
    MissingFieldsAgree(p, measured, MeasurementRequired(kind));
  }

  lemma PayloadBlanksSellerFields(measured: Record, kind: FormKind)
    ensures MissingFields(MeasurementPayload(measured, kind), SellerRequired(kind)) == SellerRequired(kind)
  {
    var p := MeasurementPayload(measured, kind);
    forall k | k in SellerRequired(kind)
      ensures !Has(p, k)
    {
      assert k in SellerBlanks(kind);
      assert p[k] == Str("");
    }
    AllMissing(p, SellerRequired(kind));
  }

  lemma {:induction false} MissingFieldsAgree(a: Record, b: Record, required: seq<string>)
    requires forall k :: k in required ==> (Has(a, k) <==> Has(b, k))
    ensures MissingFields(a, required) == MissingFields(b, required)
  {
    if required != [] {
      MissingFieldsAgree(a, b, required[..|required| - 1]);
    }
  }

  lemma {:induction false} AllMissing(data: Record, required: seq<string>)
    requires forall k :: k in required ==> !Has(data, k)
    ensures MissingFields(data, required) == required
  {
    if required != [] {
      var init, last := required[..|required| - 1], required[|required| - 1];
      assert required == init + [last];
      assert forall k :: k in init ==> k in required;
      AllMissing(data, init);
      assert last in required;
    }
  }

  // ---------------------------------------------------------------------------
  // QR payload
  // ---------------------------------------------------------------------------

  /** The text encoded in the QR code shown after a save. */
  function QrPayload(code: string, docId: string, kind: string): string {
    "KOD:" + code + "|ID:" + docId + "|TYP:" + kind
  }

  /** Reads code, document id and kind back out of a QR payload. */
  function ParseQr(s: string): Option<(string, string, string)> {
    if |s| < 4 || s[..4] != "KOD:" then None
    else match SplitAt(s[4..], '|')
      case None => None
      case Some(p) =>
        if |p.1| < 3 || p.1[..3] != "ID:" then None
        else match SplitAt(p.1[3..], '|')
          case None => None
          case Some(q) =>
            if |q.1| >= 4 && q.1[..4] == "TYP:" then Some((p.0, q.0, q.1[4..])) else None
  }

  /** A payload names its form unambiguously: access codes have no '|', nor may the id. */
  lemma QrRoundTrip(code: string, docId: string, kind: string)
    requires IsAccessCode(code) && '|' !in docId
    ensures ParseQr(QrPayload(code, docId, kind)) == Some((code, docId, kind))
  {
    assert '|' !in code;
    var s := QrPayload(code, docId, kind);
    assert s[..4] == "KOD:";
    assert s[4..] == code + ['|'] + ("ID:" + docId + "|TYP:" + kind);
    SplitAtFirst(code, '|', "ID:" + docId + "|TYP:" + kind);
    var rest := "ID:" + docId + "|TYP:" + kind;
    assert rest[..3] == "ID:";
    assert rest[3..] == docId + ['|'] + ("TYP:" + kind);
    SplitAtFirst(docId, '|', "TYP:" + kind);
    assert ("TYP:" + kind)[..4] == "TYP:" && ("TYP:" + kind)[4..] == kind;
  }

  // ---------------------------------------------------------------------------
  // Saving the measurements
  // ---------------------------------------------------------------------------

  datatype MeasurementOutcome =
    | NoInstaller
    | Missing(fields: seq<string>)
    | Saved(docId: string, code: string, qr: string, link: string)
    | NotSaved

  /**
   * The save button of `formularz_montera_drzwi` / `formularz_montera_podlogi`: nothing
   * without an installer name or with a required field missing; otherwise
   * `save_pomiary_data`, and on success the code, the QR payload and the share link.
   */
  method SubmitMeasurement(db: Store, kind: FormKind, monterId: string, measured: Record, draws: seq<nat>,
                           created: DateTime, measuredAt: DateTime, newId: string, fault: bool)
    returns (outcome: MeasurementOutcome)
    requires db.Valid() && ValidDraws(draws) && !HasId(db.Docs(CollectionOf(kind)), newId)
    modifies db
    ensures db.Valid()
    ensures monterId == "" ==> outcome == NoInstaller && db.collections == old(db.collections)
    ensures monterId != "" && MissingFields(MeasurementPayload(measured, kind), MeasurementRequired(kind)) != [] ==>
              outcome == Missing(MissingFields(MeasurementPayload(measured, kind), MeasurementRequired(kind)))
              && db.collections == old(db.collections)
    ensures monterId != "" && MissingFields(MeasurementPayload(measured, kind), MeasurementRequired(kind)) == [] ==>
              var c, code := CollectionOf(kind), GenerateAccessCode(draws);
              if fault then outcome == NotSaved && db.collections == old(db.collections)
              else
                db.collections == old(db.collections)[c := InsertById(old(db.Docs(c)), Doc(newId,
                  PomiaryStamped(MeasurementPayload(measured, kind), monterId, code, created, measuredAt)))]
                && outcome == if newId == "" then NotSaved
                              else Saved(newId, code, QrPayload(code, newId, c), GenerateShareLink(newId, code, c))
  {
    if monterId == "" {
      return NoInstaller;
    }
    var payload := MeasurementPayload(measured, kind);
    var missing := MissingFields(payload, MeasurementRequired(kind));
    if missing != [] {
      return Missing(missing);
    }
    var data := new FormData(payload);
    var c := CollectionOf(kind);
    var docId, code := SavePomiaryData(db, c, data, monterId, draws, created, measuredAt, newId, fault);
    if docId.Some? && docId.value != "" && code.Some? && code.value != "" {
      outcome := Saved(docId.value, code.value, QrPayload(code.value, docId.value, c),
                       GenerateShareLink(docId.value, code.value, c));
    } else {
      outcome := NotSaved;
    }
  }

  // ---------------------------------------------------------------------------
  // Picking a form from the worklist
  // ---------------------------------------------------------------------------

  /** `[""] + [form['kod_dostepu'] for form in formularze]`: a form without a code raises KeyError. */
  function CodeOptions(forms: seq<Record>): (r: Result<seq<Value>>)
    ensures r.Ok? <==> forall i :: 0 <= i < |forms| ==> "kod_dostepu" in forms[i]
    ensures r.Ok? ==> |r.value| == |forms| + 1 && r.value[0] == Str("")
    ensures r.Ok? ==> forall i :: 0 <= i < |forms| ==> r.value[i + 1] == forms[i]["kod_dostepu"]
  {
    if forall i :: 0 <= i < |forms| ==> "kod_dostepu" in forms[i] then
      Ok([Str("")] + seq(|forms|, i requires 0 <= i < |forms| => forms[i]["kod_dostepu"]))
    else Raised("KeyError")
  }

  /** The position of the first form, from `from` on, whose code is `code`. */
  function FirstForm(forms: seq<Record>, code: Value, from: nat): (r: Option<nat>)
    requires forall i :: 0 <= i < |forms| ==> "kod_dostepu" in forms[i]
    decreases |forms| - from
    ensures r.Some? ==> from <= r.value < |forms| && forms[r.value]["kod_dostepu"] == code
    ensures r.Some? ==> forall j :: from <= j < r.value ==> forms[j]["kod_dostepu"] != code
    ensures r.None? ==> forall j :: from <= j < |forms| ==> forms[j]["kod_dostepu"] != code
  {
    if from >= |forms| then None
    else if forms[from]["kod_dostepu"] == code then Some(from)
    else FirstForm(forms, code, from + 1)
  }

  /** `next((form for form in formularze if form['kod_dostepu'] == selected_code), None)` once a code is chosen. */
  function SelectForm(forms: seq<Record>, selected: Value): (r: Option<Record>)
    requires forall i :: 0 <= i < |forms| ==> "kod_dostepu" in forms[i]
    ensures r.Some? ==> Truthy(selected) && r.value in forms && r.value["kod_dostepu"] == selected
    ensures r.None? ==> !Truthy(selected) || forall i :: 0 <= i < |forms| ==> forms[i]["kod_dostepu"] != selected
  {
    if !Truthy(selected) then None
    else match FirstForm(forms, selected, 0)
      case None => None
      case Some(i) => Some(forms[i])
  }

  /**
   * Every offered code selects a form carrying that code, the first such in the list;
   * the empty option selects nothing.
   */
  lemma SelectOptionRoundTrip(forms: seq<Record>, k: nat)
    requires CodeOptions(forms).Ok? && k < |CodeOptions(forms).value|
    ensures k == 0 ==> SelectForm(forms, CodeOptions(forms).value[k]) == None
    ensures k > 0 && Truthy(CodeOptions(forms).value[k]) ==>
              exists j :: 0 <= j < k && SelectForm(forms, CodeOptions(forms).value[k]) == Some(forms[j])
                && forms[j]["kod_dostepu"] == CodeOptions(forms).value[k]
                && forall m :: 0 <= m < j ==> forms[m]["kod_dostepu"] != CodeOptions(forms).value[k]
  {
    if k > 0 && Truthy(CodeOptions(forms).value[k]) {
      var code := CodeOptions(forms).value[k];
      assert forms[k - 1]["kod_dostepu"] == code;
      var j := FirstForm(forms, code, 0);
      assert j.Some? && j.value <= k - 1;
    }
  }

  // ---------------------------------------------------------------------------
  // The seller's completion
  // ---------------------------------------------------------------------------

  /** `formularz_data.copy()` updated with `dane_sprzedawcy`: the seller's values win. */
  function Overlay(form: Record, seller: Record): (r: Record)
    ensures r.Keys == form.Keys + seller.Keys
    ensures forall k :: k in seller ==> r[k] == seller[k]
    ensures forall k :: k in form && k !in seller ==> r[k] == form[k]
  {
    form + seller
  }

  /** The copy handed to the PDF: a new dict; the form's own dict is left as it was. */
  method CompleteData(form: FormData, seller: Record) returns (copy: FormData)
    ensures fresh(copy)
    ensures copy.fields == Overlay(form.fields, seller)
  {
    copy := new FormData(form.fields);
    copy.fields := copy.fields + seller;
  }

  /**
   * The PDF data agree with the completed document on every field except the control
   * fields the completion writes and the id.
   */
  lemma OverlayMatchesStored(d: Doc, seller: Record, sellerId: string, now: DateTime)
    ensures forall k :: k in Overlay(WithId(d), seller) && k !in ControlKeys && k != "id" ==>
              k in d.fields + SellerUpdate(seller, sellerId, now)
              && Overlay(WithId(d), seller)[k] == (d.fields + SellerUpdate(seller, sellerId, now))[k]
  {
    var stored := d.fields + SellerUpdate(seller, sellerId, now);
    forall k | k in Overlay(WithId(d), seller) && k !in ControlKeys && k != "id"
      ensures k in stored && Overlay(WithId(d), seller)[k] == stored[k]
    {
      if k in seller {
        assert SellerUpdate(seller, sellerId, now)[k] == seller[k];
      }
    }
  }

  datatype SellerOutcome = NoSeller | MissingSeller(fields: seq<string>) | NotCompleted | Completed(pdfData: Record)

  /**
   * The finalise button of `uzupelnij_formularz_drzwi` / `uzupelnij_formularz_podlogi`:
   * nothing without a seller name or with a required seller field missing; otherwise
   * `complete_form_by_seller`, and on success the overlaid copy for the PDF.
   */
  method SubmitSellerData(db: Store, kind: FormKind, form: FormData, seller: Record, sellerId: string,
                          now: DateTime, fault: bool)
    returns (outcome: SellerOutcome)
    requires db.Valid() && "id" in form.fields && form.fields["id"].Str?
    modifies db
    ensures db.Valid()
    ensures sellerId == "" ==> outcome == NoSeller && db.collections == old(db.collections)
    ensures sellerId != "" && MissingFields(seller, SellerRequired(kind)) != [] ==>
              outcome == MissingSeller(MissingFields(seller, SellerRequired(kind))) && db.collections == old(db.collections)
    ensures sellerId != "" && MissingFields(seller, SellerRequired(kind)) == [] ==>
              var c, id := CollectionOf(kind), form.fields["id"].s;
              if !fault && HasId(old(db.Docs(c)), id) then
                outcome == Completed(Overlay(form.fields, seller))
                && db.collections == old(db.collections)[c := Patched(old(db.Docs(c)), id, SellerUpdate(seller, sellerId, now))]
              else outcome == NotCompleted && db.collections == old(db.collections)
  {
    if sellerId == "" {
      return NoSeller;
    }
    var missing := MissingFields(seller, SellerRequired(kind));
    if missing != [] {
      return MissingSeller(missing);
    }
    var ok := CompleteFormBySeller(db, CollectionOf(kind), form.fields["id"].s, seller, sellerId, now, fault);
    if ok {
      var copy := CompleteData(form, seller);
      outcome := Completed(copy.fields);
    } else {
      outcome := NotCompleted;
    }
  }
}
