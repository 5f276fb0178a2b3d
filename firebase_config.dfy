/**
 * The record workflow over the document store: saving the installer's measurements
 * with an access code, completing the form by the seller, the seller's worklist, the
 * lookup by code, the administrative status change and delete, and the share link.
 * Clock reads, the random draws of the code and the store's new ids are parameters;
 * `fault` stands for the store call raising.
 */
module FirebaseConfig {
  import opened Values
  import opened DocStore
  import opened Sorting

  // ---------------------------------------------------------------------------
  // Access codes
  // ---------------------------------------------------------------------------

  const AsciiUppercase := "ABCDEFGHIJKLMNOPQRSTUVWXYZ"
  const Digits := "0123456789"

  /** `string.ascii_uppercase + string.digits`. */
  const Alphabet := AsciiUppercase + Digits

  /** The character at position `k` of the code alphabet, by arithmetic. */
  function AlphabetChar(k: nat): (c: char)
    requires k < 36
  {
    if k < 26 then ('A' as int + k) as char else ('0' as int + k - 26) as char
  }

  lemma AlphabetLayout()
    ensures |Alphabet| == 36
    ensures forall k :: 0 <= k < 36 ==> Alphabet[k] == AlphabetChar(k)
  {
    assert forall k :: 0 <= k < 26 ==> AsciiUppercase[k] == AlphabetChar(k);
    assert forall k :: 0 <= k < 10 ==> Digits[k] == AlphabetChar(k + 26);
  }

  /** The shape of an access code: eight characters, each in A-Z or 0-9. */
  predicate IsAccessCode(s: string) {
    |s| == 8 && forall i :: 0 <= i < |s| ==> IsAsciiUpper(s[i]) || IsDigit(s[i])
  }

  /** Eight positions in the alphabet, standing for the eight `secrets.choice` draws. */
  predicate ValidDraws(draws: seq<nat>) {
    |draws| == 8 && forall i :: 0 <= i < |draws| ==> draws[i] < 36
  }

  /** `generate_access_code()`, given the eight random draws. */
  function GenerateAccessCode(draws: seq<nat>): (code: string)
    requires ValidDraws(draws)
    ensures IsAccessCode(code)
    ensures forall i :: 0 <= i < 8 ==> code[i] == AlphabetChar(draws[i])
  {
    AlphabetLayout();
    seq(8, i requires 0 <= i < 8 => Alphabet[draws[i]])
  }

  /** The position of an alphabet character. */
  function AlphabetIndex(c: char): (k: nat)
    requires IsAsciiUpper(c) || IsDigit(c)
    ensures k < 36 && AlphabetChar(k) == c
  {
    if IsAsciiUpper(c) then c as int - 'A' as int else c as int - '0' as int + 26
  }

  /** Every string of the code shape is one the generator can produce. */
  lemma EveryAccessCodeIsReachable(code: string)
    requires IsAccessCode(code)
    ensures exists draws :: ValidDraws(draws) && GenerateAccessCode(draws) == code
  {
    var draws := seq(8, i requires 0 <= i < 8 => AlphabetIndex(code[i]));
    assert ValidDraws(draws);
    assert GenerateAccessCode(draws) == code;
  }

  // ---------------------------------------------------------------------------
  // Saving: installer's measurements, plain door and floor records
  // ---------------------------------------------------------------------------

  const PomiaryKeys := {"data_utworzenia", "etap_formularza", "wypelnil_monter", "data_pomiary",
                        "monter_id", "kod_dostepu", "status"}

  /** The installer's form as `save_pomiary_data` leaves it before the write. */
  function PomiaryStamped(data: Record, monterId: string, code: string, created: DateTime, measured: DateTime): (r: Record)
    ensures r.Keys == data.Keys + PomiaryKeys
    ensures r["data_utworzenia"] == Time(created) && r["data_pomiary"] == Time(measured)
    ensures r["etap_formularza"] == Str("pomiary") && r["wypelnil_monter"] == Bool(true)
    ensures r["monter_id"] == Str(monterId) && r["kod_dostepu"] == Str(code)
    ensures r["status"] == Str("pomiary_wykonane")
    ensures forall k :: k in data && k !in PomiaryKeys ==> r[k] == data[k]
  {
    data["data_utworzenia" := Time(created)]["etap_formularza" := Str("pomiary")]
        ["wypelnil_monter" := Bool(true)]["data_pomiary" := Time(measured)]
        ["monter_id" := Str(monterId)]["kod_dostepu" := Str(code)]["status" := Str("pomiary_wykonane")]
  }

  /**
   * `save_pomiary_data`: stamps the caller's dict in place, then adds it as a new
   * document; returns the new id and the code, or (None, None) when the write fails.
   * `created` and `measured` are the two clock reads, `draws` the code's random draws.
   */
  method SavePomiaryData(db: Store, collection: string, data: FormData, monterId: string,
                         draws: seq<nat>, created: DateTime, measured: DateTime, newId: string, fault: bool)
    returns (docId: Option<string>, code: Option<string>)
    requires db.Valid() && ValidDraws(draws) && !HasId(db.Docs(collection), newId)
    modifies db, data
    ensures db.Valid()
    ensures data.fields == PomiaryStamped(old(data.fields), monterId, GenerateAccessCode(draws), created, measured)
    ensures fault ==> docId == None && code == None && db.collections == old(db.collections)
    ensures !fault ==> docId == Some(newId) && code == Some(GenerateAccessCode(draws))
    ensures !fault ==> db.collections == old(db.collections)[collection := InsertById(old(db.Docs(collection)), Doc(newId, data.fields))]
  {
    var accessCode := GenerateAccessCode(draws);
    data.fields := PomiaryStamped(data.fields, monterId, accessCode, created, measured);
    if fault {
      return None, None;
    }
    db.Add(collection, data.fields, newId);
    return Some(newId), Some(accessCode);
  }

  /** The record as `save_drzwi_data` / `save_podlogi_data` leave it before the write. */
  function ActiveStamped(data: Record, now: DateTime): (r: Record)
    ensures r.Keys == data.Keys + {"data_utworzenia", "status"}
    ensures r["data_utworzenia"] == Time(now) && r["status"] == Str("aktywny")
    ensures forall k :: k in data && k != "data_utworzenia" && k != "status" ==> r[k] == data[k]
  {
    data["data_utworzenia" := Time(now)]["status" := Str("aktywny")]
  }

  method SaveActive(db: Store, collection: string, data: FormData, now: DateTime, newId: string, fault: bool)
    returns (docId: Option<string>)
    requires db.Valid() && !HasId(db.Docs(collection), newId)
    modifies db, data
    ensures db.Valid()
    ensures data.fields == ActiveStamped(old(data.fields), now)
    ensures fault ==> docId == None && db.collections == old(db.collections)
    ensures !fault ==> docId == Some(newId)
    ensures !fault ==> db.collections == old(db.collections)[collection := InsertById(old(db.Docs(collection)), Doc(newId, data.fields))]
  {
    data.fields := ActiveStamped(data.fields, now);
    if fault {
      return None;
    }
    db.Add(collection, data.fields, newId);
    return Some(newId);
  }

  /** `save_drzwi_data`: an active record in the door collection. */
  method SaveDrzwiData(db: Store, data: FormData, now: DateTime, newId: string, fault: bool)
    returns (docId: Option<string>)
    requires db.Valid() && !HasId(db.Docs("drzwi"), newId)
    modifies db, data
    ensures db.Valid()
    ensures data.fields == ActiveStamped(old(data.fields), now)
    ensures fault ==> docId == None && db.collections == old(db.collections)
    ensures !fault ==> docId == Some(newId)
    ensures !fault ==> db.collections == old(db.collections)["drzwi" := InsertById(old(db.Docs("drzwi")), Doc(newId, data.fields))]
  {
    docId := SaveActive(db, "drzwi", data, now, newId, fault);
  }

  /** `save_podlogi_data`: an active record in the floor collection. */
  method SavePodlogiData(db: Store, data: FormData, now: DateTime, newId: string, fault: bool)
    returns (docId: Option<string>)
    requires db.Valid() && !HasId(db.Docs("podlogi"), newId)
    modifies db, data
    ensures db.Valid()
    ensures data.fields == ActiveStamped(old(data.fields), now)
    ensures fault ==> docId == None && db.collections == old(db.collections)
    ensures !fault ==> docId == Some(newId)
    ensures !fault ==> db.collections == old(db.collections)["podlogi" := InsertById(old(db.Docs("podlogi")), Doc(newId, data.fields))]
  {
    docId := SaveActive(db, "podlogi", data, now, newId, fault);
  }

  // ---------------------------------------------------------------------------
  // Completion by the seller
  // ---------------------------------------------------------------------------

  const ControlKeys := {"wypelnil_sprzedawca", "data_sprzedaz", "sprzedawca_id", "etap_formularza", "status"}

  /** The update `complete_form_by_seller` writes: the seller's fields, then the control fields over them. */
  function SellerUpdate(seller: Record, sellerId: string, now: DateTime): (r: Record)
    ensures r.Keys == seller.Keys + ControlKeys
    ensures r["wypelnil_sprzedawca"] == Bool(true) && r["data_sprzedaz"] == Time(now)
    ensures r["sprzedawca_id"] == Str(sellerId)
    ensures r["etap_formularza"] == Str("kompletny") && r["status"] == Str("aktywny")
    ensures forall k :: k in seller && k !in ControlKeys ==> r[k] == seller[k]
  {
    seller + map["wypelnil_sprzedawca" := Bool(true), "data_sprzedaz" := Time(now),
                 "sprzedawca_id" := Str(sellerId), "etap_formularza" := Str("kompletny"),
                 "status" := Str("aktywny")]
  }

  /**
   * A completed document keeps every field the update does not name, and completing
   * it again with the same seller data gives what one completion at the later time gives:
   * the two differ only in `data_sprzedaz`.
   */
  lemma CompletionIsIdempotent(doc: Record, seller: Record, sellerId: string, t1: DateTime, t2: DateTime)
    ensures forall k :: k in doc && k !in seller && k !in ControlKeys ==> (doc + SellerUpdate(seller, sellerId, t1))[k] == doc[k]
    ensures (doc + SellerUpdate(seller, sellerId, t1)) + SellerUpdate(seller, sellerId, t2)
            == doc + SellerUpdate(seller, sellerId, t2)
    ensures forall k :: k in doc + SellerUpdate(seller, sellerId, t1) && k != "data_sprzedaz" ==>
              (doc + SellerUpdate(seller, sellerId, t1))[k] == (doc + SellerUpdate(seller, sellerId, t2))[k]
  {
    var u1, u2 := SellerUpdate(seller, sellerId, t1), SellerUpdate(seller, sellerId, t2);
    OverwriteTwice(doc, u1, u2);
    SellerUpdateTimeOnly(seller, sellerId, t1, t2);
  }

  /** Writing two updates with the same keys leaves only the second. */
  lemma OverwriteTwice(doc: Record, u1: Record, u2: Record)
    requires u1.Keys == u2.Keys
    ensures (doc + u1) + u2 == doc + u2
  {
    var a, b := (doc + u1) + u2, doc + u2;
    assert a.Keys == b.Keys;
    forall k | k in a ensures a[k] == b[k] {
      if k in u2 {
        assert a[k] == u2[k] && b[k] == u2[k];
      } else {
        assert k !in u1;
        assert a[k] == doc[k] && b[k] == doc[k];
      }
    }
  }

  /** Two completions with the same seller data differ only in `data_sprzedaz`. */
  lemma SellerUpdateTimeOnly(seller: Record, sellerId: string, t1: DateTime, t2: DateTime)
    ensures SellerUpdate(seller, sellerId, t1).Keys == SellerUpdate(seller, sellerId, t2).Keys
    ensures forall k :: k in SellerUpdate(seller, sellerId, t1) && k != "data_sprzedaz" ==>
              SellerUpdate(seller, sellerId, t1)[k] == SellerUpdate(seller, sellerId, t2)[k]
  {
    var u1, u2 := SellerUpdate(seller, sellerId, t1), SellerUpdate(seller, sellerId, t2);
    forall k | k in u1 && k != "data_sprzedaz" ensures u1[k] == u2[k] {
      if k !in ControlKeys {
        assert u1[k] == seller[k] && u2[k] == seller[k];
      }
    }
  }

  /**
   * `complete_form_by_seller`: merges the update into the document whatever its stage;
   * false when the document does not exist or the write fails.
   */
  method CompleteFormBySeller(db: Store, collection: string, docId: string, seller: Record,
                              sellerId: string, now: DateTime, fault: bool)
    returns (ok: bool)
    requires db.Valid()
    modifies db
    ensures db.Valid()
    ensures ok <==> !fault && HasId(old(db.Docs(collection)), docId)
    ensures db.collections == if ok
      then old(db.collections)[collection := Patched(old(db.Docs(collection)), docId, SellerUpdate(seller, sellerId, now))]
      else old(db.collections)
  {
    if fault {
      return false;
    }
    ok := db.Update(collection, docId, SellerUpdate(seller, sellerId, now));
  }

  // ---------------------------------------------------------------------------
  // Administrative overrides
  // ---------------------------------------------------------------------------

  /** `update_record_status`: writes the status and the modification time, whatever the old status. */
  method UpdateRecordStatus(db: Store, collection: string, docId: string, newStatus: string,
                            now: DateTime, fault: bool)
    returns (ok: bool)
    requires db.Valid()
    modifies db
    ensures db.Valid()
    ensures ok <==> !fault && HasId(old(db.Docs(collection)), docId)
    ensures db.collections == if ok
      then old(db.collections)[collection := Patched(old(db.Docs(collection)), docId,
                                                     map["status" := Str(newStatus), "data_modyfikacji" := Time(now)])]
      else old(db.collections)
  {
    if fault {
      return false;
    }
    ok := db.Update(collection, docId, map["status" := Str(newStatus), "data_modyfikacji" := Time(now)]);
  }

  /** `delete_record`: removes the document if it is there; true unless the store fails. */
  method DeleteRecord(db: Store, collection: string, docId: string, fault: bool) returns (ok: bool)
    requires db.Valid()
    modifies db
    ensures db.Valid()
    ensures ok == !fault
    ensures ok && collection in old(db.collections) ==>
      db.collections == old(db.collections)[collection := Removed(old(db.Docs(collection)), docId)]
    ensures !ok || collection !in old(db.collections) ==> db.collections == old(db.collections)
  {
    if fault {
      return false;
    }
    db.Delete(collection, docId);
    return true;
  }

  // ---------------------------------------------------------------------------
  // Lookup by access code
  // ---------------------------------------------------------------------------

  /** `doc.to_dict()` with `id` added. */
  function WithId(d: Doc): (r: Record)
    ensures r.Keys == d.fields.Keys + {"id"} && r["id"] == Str(d.id)
    ensures forall k :: k in d.fields && k != "id" ==> r[k] == d.fields[k]
  {
    d.fields["id" := Str(d.id)]
  }

  predicate HasCode(d: Doc, code: string) {
    Get(d.fields, "kod_dostepu") == Str(code)
  }

  /** The position of the first document, from `from` on, whose access code is `code`. */
  function FirstWithCode(docs: seq<Doc>, code: string, from: nat): (r: Option<nat>)
    decreases |docs| - from
    ensures r.Some? ==> from <= r.value < |docs| && HasCode(docs[r.value], code)
    ensures r.Some? ==> forall j :: from <= j < r.value ==> !HasCode(docs[j], code)
    ensures r.None? ==> forall j :: from <= j < |docs| ==> !HasCode(docs[j], code)
  {
    if from >= |docs| then None
    else if HasCode(docs[from], code) then Some(from)
    else FirstWithCode(docs, code, from + 1)
  }

  /** `get_form_by_access_code`: the first document in query order with that code, or None. */
  function GetFormByAccessCode(docs: seq<Doc>, code: string, fault: bool): (r: Option<Record>)
    ensures fault ==> r == None
    ensures !fault ==> (r.Some? <==> exists i :: 0 <= i < |docs| && HasCode(docs[i], code))
    ensures r.Some? ==> exists i :: 0 <= i < |docs| && HasCode(docs[i], code) && r.value == WithId(docs[i])
                                    && forall j :: 0 <= j < i ==> !HasCode(docs[j], code)
  {
    if fault then None
    else
      match FirstWithCode(docs, code, 0)
      case None => None
      case Some(i) => Some(WithId(docs[i]))
  }

  // ---------------------------------------------------------------------------
  // The seller's worklist
  // ---------------------------------------------------------------------------

  /** Filled in by the installer and still at the measurement stage. */
  predicate ReadyForSeller(fields: Record) {
    Get(fields, "wypelnil_monter") == Bool(true) && Get(fields, "etap_formularza") == Str("pomiary")
  }

  /** The documents the worklist query and its filter keep, with `id` added, in query order. */
  function Pending(docs: seq<Doc>): seq<Record> {
    if docs == [] then []
    else (if ReadyForSeller(docs[0].fields) then [WithId(docs[0])] else []) + Pending(docs[1..])
  }

  lemma {:induction false} PendingAppend(a: seq<Doc>, b: seq<Doc>)
    ensures Pending(a + b) == Pending(a) + Pending(b)
  {
    if a == [] {
      assert a + b == b;
    } else {
      assert (a + b)[0] == a[0] && (a + b)[1..] == a[1..] + b;
      PendingAppend(a[1..], b);
    }
  }

  /** A form is on the worklist exactly when some document ready for the seller gives it. */
  lemma {:induction false} PendingMembers(docs: seq<Doc>, form: Record)
    ensures form in Pending(docs) <==> exists i :: 0 <= i < |docs| && ReadyForSeller(docs[i].fields) && form == WithId(docs[i])
  {
    if docs != [] {
      PendingMembers(docs[1..], form);
      if form in Pending(docs[1..]) {
        var i :| 0 <= i < |docs[1..]| && ReadyForSeller(docs[1..][i].fields) && form == WithId(docs[1..][i]);
        assert docs[i + 1] == docs[1..][i];
      }
      if exists i :: 0 <= i < |docs| && ReadyForSeller(docs[i].fields) && form == WithId(docs[i]) {
        var i :| 0 <= i < |docs| && ReadyForSeller(docs[i].fields) && form == WithId(docs[i]);
        if i > 0 {
          assert docs[1..][i - 1] == docs[i];
        }
      }
    }
  }

  /**
   * The sort key `x.get('data_utworzenia', default)`, by what Python can compare it
   * with. A stored timestamp reads back timezone-aware; the default `datetime.min` is
   * naive; a stored string, number or bool (a number), or date orders among its own
   * kind; None, a dict or a list is not ordered here.
   */
  datatype CreatedKind = Stamp(t: DateTime) | NaiveMin | Text(s: string) | Number(n: int) | CalendarDay(d: Date) | Unordered

  function CreatedKey(form: Record, default: CreatedKind): CreatedKind {
    if "data_utworzenia" !in form then default
    else match form["data_utworzenia"]
      case Time(t) => Stamp(t)
      case Str(s) => Text(s)
      case Int(i) => Number(i)
      case Bool(b) => Number(if b then 1 else 0)
      case Day(d) => CalendarDay(d)
      case _ => Unordered
  }

  /** Python's `<` accepts the two keys: the same kind, and a kind that is ordered at all. */
  predicate Comparable(a: CreatedKind, b: CreatedKind) {
    match (a, b)
    case (Stamp(_), Stamp(_)) => true
    case (NaiveMin, NaiveMin) => true
    case (Text(_), Text(_)) => true
    case (Number(_), Number(_)) => true
    case (CalendarDay(_), CalendarDay(_)) => true
    case _ => false
  }

  /** What `<` compares: the datetime, a date at midnight, the string or the number. */
  function OrderKey(k: CreatedKind): Key {
    match k
    case Stamp(t) => KTime(t)
    case NaiveMin => KTime(DateTimeMin)
    case Text(s) => KText(s)
    case Number(n) => KNum(n)
    case CalendarDay(d) => KTime(DateTime(d, 0, 0, 0, 0))
    case Unordered => KNum(0)
  }

  /**
   * The sort raises TypeError: with two or more forms every form's key takes part in
   * some comparison, and a sort that succeeds has compared every pair of neighbours in
   * its output, so it raises exactly when some key is unordered or two keys are of
   * kinds Python will not compare.
   */
  predicate SortRaisesWith(forms: seq<Record>, default: CreatedKind) {
    |forms| >= 2
    && exists i, j :: 0 <= i < |forms| && 0 <= j < |forms|
                      && !Comparable(CreatedKey(forms[i], default), CreatedKey(forms[j], default))
  }

  /** The missing-date default as written: the naive `datetime.min`. */
  function KeyAsWritten(form: Record): Key {
    OrderKey(CreatedKey(form, NaiveMin))
  }

  predicate SortRaisesAsWritten(forms: seq<Record>) {
    SortRaisesWith(forms, NaiveMin)
  }

  /** `get_forms_for_completion` as written: the `except` turns the TypeError into `[]`. */
  function WorklistAsWritten(docs: seq<Doc>): (r: seq<Record>)
    ensures r == [] <==> Pending(docs) == [] || SortRaisesAsWritten(Pending(docs))
    ensures r != [] ==> multiset(r) == multiset(Pending(docs))
  {
    var forms := Pending(docs);
    if SortRaisesAsWritten(forms) then []
    else
      SortDescPerm(forms, KeyAsWritten);
      assert |multiset(SortDesc(forms, KeyAsWritten))| == |multiset(forms)|;
      SortDesc(forms, KeyAsWritten)
  }

  /** The missing-date default made timezone-aware, like the stored timestamps. */
  function FixedKey(form: Record): Key {
    OrderKey(CreatedKey(form, Stamp(DateTimeMin)))
  }

  predicate SortRaises(forms: seq<Record>) {
    SortRaisesWith(forms, Stamp(DateTimeMin))
  }

  /** `get_forms_for_completion` with the default made timezone-aware. */
  function Worklist(docs: seq<Doc>): seq<Record> {
    var forms := Pending(docs);
    if SortRaises(forms) then [] else SortDesc(forms, FixedKey)
  }

  /** A form saved with a timestamp, or without `data_utworzenia`. */
  predicate DatedOrUndated(form: Record) {
    "data_utworzenia" !in form || form["data_utworzenia"].Time?
  }

  /**
   * As written, when every date is a timestamp or missing, the sort raises exactly when
   * there are two or more forms and both a dated and an undated one among them; with
   * the aware default it never raises.
   */
  lemma AsWrittenRaisesOnMixedDates(forms: seq<Record>)
    requires forall i :: 0 <= i < |forms| ==> DatedOrUndated(forms[i])
    ensures SortRaisesAsWritten(forms) <==>
              |forms| >= 2 && (exists i :: 0 <= i < |forms| && "data_utworzenia" !in forms[i])
              && (exists j :: 0 <= j < |forms| && "data_utworzenia" in forms[j])
    ensures !SortRaises(forms)
  {
    if SortRaisesAsWritten(forms) {
      var i, j :| 0 <= i < |forms| && 0 <= j < |forms|
                  && !Comparable(CreatedKey(forms[i], NaiveMin), CreatedKey(forms[j], NaiveMin));
      if "data_utworzenia" in forms[i] {
        assert "data_utworzenia" !in forms[j];
      }
    }
    if |forms| >= 2 && (exists i :: 0 <= i < |forms| && "data_utworzenia" !in forms[i])
       && (exists j :: 0 <= j < |forms| && "data_utworzenia" in forms[j]) {
      var i :| 0 <= i < |forms| && "data_utworzenia" !in forms[i];
      var j :| 0 <= j < |forms| && "data_utworzenia" in forms[j];
      assert !Comparable(CreatedKey(forms[i], NaiveMin), CreatedKey(forms[j], NaiveMin));
    }
    forall i, j | 0 <= i < |forms| && 0 <= j < |forms|
      ensures Comparable(CreatedKey(forms[i], Stamp(DateTimeMin)), CreatedKey(forms[j], Stamp(DateTimeMin)))
    {
      assert DatedOrUndated(forms[i]) && DatedOrUndated(forms[j]);
    }
  }

  /**
   * As written, whenever the keys are mutually comparable (all timestamps, all
   * strings, all numbers, …) the worklist holds exactly the forms ready for the seller,
   * largest key first, equal keys in the store's id order; otherwise it is empty.
   */
  lemma WorklistAsWrittenCorrect(docs: seq<Doc>)
    ensures SortRaisesAsWritten(Pending(docs)) ==> WorklistAsWritten(docs) == []
    ensures !SortRaisesAsWritten(Pending(docs)) ==>
              multiset(WorklistAsWritten(docs)) == multiset(Pending(docs))
              && SortedDesc(WorklistAsWritten(docs), KeyAsWritten)
              && forall k :: WithKey(WorklistAsWritten(docs), KeyAsWritten, k) == WithKey(Pending(docs), KeyAsWritten, k)
  {
    SortDescCorrect(Pending(docs), KeyAsWritten);
  }

  /**
   * When every form's date is a timestamp or missing, the corrected worklist holds
   * exactly the forms ready for the seller, newest first, those without a date after
   * every dated one, and forms with equal dates in the store's id order.
   */
  lemma WorklistCorrect(docs: seq<Doc>)
    requires forall d :: d in docs && ReadyForSeller(d.fields) ==> DatedOrUndated(WithId(d))
    ensures multiset(Worklist(docs)) == multiset(Pending(docs))
    ensures SortedDesc(Worklist(docs), FixedKey)
    ensures forall k :: WithKey(Worklist(docs), FixedKey, k) == WithKey(Pending(docs), FixedKey, k)
    ensures forall i, j :: 0 <= i < j < |Worklist(docs)| && "data_utworzenia" !in Worklist(docs)[i]
              ==> !KeyBefore(KTime(DateTimeMin), FixedKey(Worklist(docs)[j]))
  {
    var forms := Pending(docs);
    forall i | 0 <= i < |forms| ensures DatedOrUndated(forms[i]) {
      assert forms[i] in forms;
      PendingMembers(docs, forms[i]);
    }
    AsWrittenRaisesOnMixedDates(forms);
    SortDescCorrect(forms, FixedKey);
  }

  /**
   * The defect: two forms ready for the seller, one saved without `data_utworzenia`,
   * empty the whole worklist as written, while the corrected one lists both, the dated
   * one first.
   */
  lemma WorklistMixedDatesCounterexample(t: DateTime)
    requires Before(DateTimeMin, t)
    ensures var ready := map["wypelnil_monter" := Bool(true), "etap_formularza" := Str("pomiary")];
            var docs := [Doc("a", ready), Doc("b", ready["data_utworzenia" := Time(t)])];
            WorklistAsWritten(docs) == [] && Worklist(docs) == [WithId(docs[1]), WithId(docs[0])]
  {
    var ready := map["wypelnil_monter" := Bool(true), "etap_formularza" := Str("pomiary")];
    var docs := [Doc("a", ready), Doc("b", ready["data_utworzenia" := Time(t)])];
    var a, b := WithId(docs[0]), WithId(docs[1]);
    assert Pending(docs[1..][1..]) == [];
    assert Pending(docs[1..]) == [b];
    assert Pending(docs) == [a, b];
    AsWrittenRaisesOnMixedDates([a, b]);
    assert "data_utworzenia" !in a && "data_utworzenia" in b;
    assert FixedKey(a) == KTime(DateTimeMin) && FixedKey(b) == KTime(t);
    assert SortDesc([a], FixedKey) == [a];
    assert SortDesc([a, b], FixedKey) == InsertDesc([a], b, FixedKey);
  }

  /**
   * `get_forms_for_completion` as written: the store query, the stage filter loop
   * adding `id`, then the newest-first sort; `[]` when anything raises.
   */
  method GetFormsForCompletion(db: Store, collection: string, fault: bool) returns (forms: seq<Record>)
    ensures forms == if fault then [] else WorklistAsWritten(db.Docs(collection))
  {
    if fault {
      return [];
    }
    var docs := db.Docs(collection);
    forms := [];
    var i := 0;
    while i < |docs|
      invariant 0 <= i <= |docs|
      invariant forms == Pending(docs[..i])
    {
      PendingAppend(docs[..i], [docs[i]]);
      assert docs[..i + 1] == docs[..i] + [docs[i]];
      if ReadyForSeller(docs[i].fields) {
        forms := forms + [WithId(docs[i])];
      }
      i := i + 1;
    }
    assert docs[..i] == docs;
    if SortRaisesAsWritten(forms) {
      return [];
    }
    forms := SortDesc(forms, KeyAsWritten);
  }

  // ---------------------------------------------------------------------------
  // Share link
  // ---------------------------------------------------------------------------

  const LinkPrefix := "https://twoja-aplikacja.com/uzupelnij/"

  /** `generate_share_link`. */
  function GenerateShareLink(docId: string, code: string, collection: string): (r: string)
    ensures |r| > |LinkPrefix| && r[..|LinkPrefix|] == LinkPrefix
    ensures |r| >= |code| + 5 && r[|r| - |code| - 5..] == "?kod=" + code
  {
    var r := LinkPrefix + collection + "/" + docId + "?kod=" + code;
    assert r == LinkPrefix + (collection + "/" + docId) + ("?kod=" + code);
    r
  }

  /** `s` split at the first occurrence of `c`. */
  function SplitAt(s: string, c: char): (r: Option<(string, string)>)
    ensures r.Some? ==> s == r.value.0 + [c] + r.value.1 && c !in r.value.0
    ensures r.None? ==> c !in s
  {
    if s == [] then None
    else if s[0] == c then Some(([], s[1..]))
    else match SplitAt(s[1..], c)
      case None => None
      case Some(p) => Some(([s[0]] + p.0, p.1))
  }

  lemma {:induction false} SplitAtFirst(a: string, c: char, b: string)
    requires c !in a
    ensures SplitAt(a + [c] + b, c) == Some((a, b))
  {
    if a != [] {
      assert (a + [c] + b)[0] == a[0] && a[0] != c;
      assert (a + [c] + b)[1..] == a[1..] + [c] + b;
      SplitAtFirst(a[1..], c, b);
      assert [a[0]] + a[1..] == a;
    } else {
      assert a + [c] + b == [c] + b;
    }
  }

  /** Reads collection, document id and code back out of a share link. */
  function ParseShareLink(url: string): Option<(string, string, string)> {
    if |url| < |LinkPrefix| || url[..|LinkPrefix|] != LinkPrefix then None
    else match SplitAt(url[|LinkPrefix|..], '/')
      case None => None
      case Some(p) =>
        match SplitAt(p.1, '?')
        case None => None
        case Some(q) =>
          if |q.1| >= 4 && q.1[..4] == "kod=" then Some((p.0, q.0, q.1[4..])) else None
  }

  /** A link names its form unambiguously when the collection has no '/' and the id no '?'. */
  lemma ShareLinkRoundTrip(docId: string, code: string, collection: string)
    requires '/' !in collection && '?' !in docId
    ensures ParseShareLink(GenerateShareLink(docId, code, collection)) == Some((collection, docId, code))
  {
    var url := GenerateShareLink(docId, code, collection);
    var rest := url[|LinkPrefix|..];
    assert url[..|LinkPrefix|] == LinkPrefix;
    assert rest == collection + ['/'] + (docId + ['?'] + ("kod=" + code));
    SplitAtFirst(collection, '/', docId + ['?'] + ("kod=" + code));
    SplitAtFirst(docId, '?', "kod=" + code);
    assert ("kod=" + code)[..4] == "kod=";
    assert ("kod=" + code)[4..] == code;
  }
}
