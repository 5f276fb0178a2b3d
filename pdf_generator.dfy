/**
 * The field-selection logic of the PDF generator: which values reach the info tables,
 * which opening side and which image files are chosen, the opening-side text, the
 * skirting-board total, which order types have a generator, and the download file name.
 * The layout itself is not part of this model; whether a file exists is a parameter.
 */
module PdfGenerator {
  import opened Values
  import Dates

  // ---------------------------------------------------------------------------
  // Text and info tables
  // ---------------------------------------------------------------------------

  /** `safe_text`: "" for a falsy value, otherwise `str(value)`. */
  function SafeText(v: Value): (r: string)
    ensures !Truthy(v) ==> r == ""
    ensures Truthy(v) ==> r == Show(v)
  {
    if !Truthy(v) then "" else Show(v)
  }

  /** A truthy value never prints as the empty string. */
  lemma ShowOfTruthy(v: Value)
    requires Truthy(v)
    ensures Show(v) != ""
  {
    match v
    case Int(i) =>
      if i < 0 {
        assert Show(v)[0] == '-';
      } else {
        assert |NatDigits(i)| > 0;
      }
    case Time(t) =>
      assert |ShowDate(t.date)| == 10;
    case Day(d) =>
      assert |ShowDate(d)| == 10;
    case _ =>
  }

  /** So `safe_text` is empty exactly for falsy values. */
  lemma SafeTextEmpty(v: Value)
    ensures SafeText(v) == "" <==> !Truthy(v)
  {
    if Truthy(v) {
      ShowOfTruthy(v);
    }
  }

  /** The rows of an info table: one `("key:", str(value))` per truthy entry, in dict order. */
  function Rows(entries: seq<(string, Value)>): seq<(string, string)> {
    if entries == [] then []
    else
      var e := entries[|entries| - 1];
      Rows(entries[..|entries| - 1])
      + (if Truthy(e.1) then [(SafeText(Str(e.0 + ":")), SafeText(Str(Show(e.1))))] else [])
  }

  /** The row loop of `create_info_section` / `build_info_panel`. */
  method InfoRows(entries: seq<(string, Value)>) returns (rows: seq<(string, string)>)
    ensures rows == Rows(entries)
  {
    rows := [];
    var i := 0;
    while i < |entries|
      invariant 0 <= i <= |entries|
      invariant rows == Rows(entries[..i])
    {
      var e := entries[i];
      assert entries[..i + 1][..i] == entries[..i] && entries[..i + 1][i] == e;
      if Truthy(e.1) {
        rows := rows + [(SafeText(Str(e.0 + ":")), SafeText(Str(Show(e.1))))];
      }
      i := i + 1;
    }
    assert entries[..i] == entries;
  }

  /** Exactly the truthy entries become rows, labelled "key:" and shown with `str`. */
  lemma {:induction false} RowsFacts(entries: seq<(string, Value)>)
    ensures |Rows(entries)| <= |entries|
    ensures forall row :: row in Rows(entries) <==>
              exists i :: 0 <= i < |entries| && Truthy(entries[i].1) && row == (entries[i].0 + ":", Show(entries[i].1))
  {
    if entries != [] {
      var init, e := entries[..|entries| - 1], entries[|entries| - 1];
      RowsFacts(init);
      assert forall i :: 0 <= i < |init| ==> init[i] == entries[i];
      if Truthy(e.1) {
        ShowOfTruthy(e.1);
        assert SafeText(Str(e.0 + ":")) == e.0 + ":";
      }
    }
  }

  /** Rows keep the entries' order: the table of two dicts is the two tables one after the other. */
  lemma {:induction false} RowsAppend(a: seq<(string, Value)>, b: seq<(string, Value)>)
    ensures Rows(a + b) == Rows(a) + Rows(b)
  {
    if b == [] {
      assert a + b == a;
    } else {
      assert (a + b)[..|a + b| - 1] == a + b[..|b| - 1];
      RowsAppend(a, b[..|b| - 1]);
    }
  }

  // ---------------------------------------------------------------------------
  // Opening side
  // ---------------------------------------------------------------------------

  /** The flags in priority order, and the label each prints as. */
  const SideOrder := ["lewe_przyl", "prawe_przyl", "lewe_odwr", "prawe_odwr"]
  const SideLabels := ["Lewe przylgowe", "Prawe przylgowe", "Lewe odwrotna przylga", "Prawe odwrotna przylga"]

  /** `data.get('strona_otwierania', {})`, on which `.get` is then called: a non-dict raises. */
  function OpeningConfig(data: Record): (r: Result<Record>)
    ensures r.Ok? <==> GetOr(data, "strona_otwierania", Dict(map[])).Dict?
  {
    match GetOr(data, "strona_otwierania", Dict(map[]))
    case Dict(m) => Ok(m)
    case _ => Raised("AttributeError")
  }

  /** The position of the first flag set, from `from` on, in priority order. */
  function FirstSide(cfg: Record, from: nat): (r: Option<nat>)
    decreases |SideOrder| - from
    ensures r.Some? ==> from <= r.value < |SideOrder| && Has(cfg, SideOrder[r.value])
    ensures r.Some? ==> forall j :: from <= j < r.value ==> !Has(cfg, SideOrder[j])
    ensures r.None? ==> forall j :: from <= j < |SideOrder| ==> !Has(cfg, SideOrder[j])
  {
    if from >= |SideOrder| then None
    else if Has(cfg, SideOrder[from]) then Some(from)
    else FirstSide(cfg, from + 1)
  }

  /** `next((k for k in order_of_priority if cfg.get(k)), None)`. */
  function SelectedSide(cfg: Record): (r: Option<string>)
    ensures r.None? <==> forall i :: 0 <= i < |SideOrder| ==> !Has(cfg, SideOrder[i])
    ensures r.Some? ==> exists i :: 0 <= i < |SideOrder| && r.value == SideOrder[i] && Has(cfg, SideOrder[i])
                          && forall j :: 0 <= j < i ==> !Has(cfg, SideOrder[j])
  {
    match FirstSide(cfg, 0)
    case None => None
    case Some(i) => Some(SideOrder[i])
  }

  /** The labels of the flags set, in the fixed order. */
  function OpeningLabels(cfg: Record): seq<string> {
    (if Has(cfg, "lewe_przyl") then ["Lewe przylgowe"] else [])
    + (if Has(cfg, "prawe_przyl") then ["Prawe przylgowe"] else [])
    + (if Has(cfg, "lewe_odwr") then ["Lewe odwrotna przylga"] else [])
    + (if Has(cfg, "prawe_odwr") then ["Prawe odwrotna przylga"] else [])
  }

  /** The "Strona otwierania" cell of the door PDF. */
  function OpeningText(cfg: Record): (r: string)
    ensures r != ""
    ensures |OpeningLabels(cfg)| == 1 ==> r == OpeningLabels(cfg)[0]
  {
    if OpeningLabels(cfg) == [] then "Nie wybrano"
    else
      JoinStartsWithFirst(OpeningLabels(cfg), ", ");
      Join(OpeningLabels(cfg), ", ")
  }

  lemma {:induction false} JoinStartsWithFirst(parts: seq<string>, sep: string)
    requires parts != [] && parts[0] != ""
    ensures Join(parts, sep) != "" && Join(parts, sep)[0] == parts[0][0]
  {
  }

  /**
   * The text says "Nie wybrano" exactly when no side is chosen; otherwise it lists the
   * sides set, and the first one listed is the side whose picture the PDF shows.
   */
  lemma OpeningTextMatchesImage(cfg: Record)
    ensures OpeningText(cfg) == "Nie wybrano" <==> SelectedSide(cfg).None?
    ensures forall i :: 0 <= i < |SideOrder| && SelectedSide(cfg) == Some(SideOrder[i]) ==>
              OpeningLabels(cfg) != [] && OpeningLabels(cfg)[0] == SideLabels[i]
  {
    var labels := OpeningLabels(cfg);
    if labels != [] {
      assert labels[0] in SideLabels;
      JoinStartsWithFirst(labels, ", ");
      assert OpeningText(cfg)[0] != 'N';
    }
  }

  /** With a single side set, the text is that side's label alone. */
  lemma OpeningTextOfOneSide(cfg: Record, i: nat)
    requires i < |SideOrder| && Has(cfg, SideOrder[i])
    requires forall j :: 0 <= j < |SideOrder| && j != i ==> !Has(cfg, SideOrder[j])
    ensures OpeningText(cfg) == SideLabels[i]
  {
    assert !Has(cfg, SideOrder[0]) || i == 0;
    assert !Has(cfg, SideOrder[1]) || i == 1;
    assert !Has(cfg, SideOrder[2]) || i == 2;
    assert !Has(cfg, SideOrder[3]) || i == 3;
    assert OpeningLabels(cfg) == [SideLabels[i]];
  }

  // ---------------------------------------------------------------------------
  // Image files
  // ---------------------------------------------------------------------------

  const DoorImageDirs := ["drzwi/", "images/drzwi/"]
  const DoorTypeDirs := ["typ_drzwi/", "images/typ_drzwi/"]

  /** The file names tried for each opening side. */
  function SideCandidates(key: string): seq<string> {
    if key == "lewe_przyl" then ["lewe_przyl.png", "lewe_przylgowe.png"]
    else if key == "prawe_przyl" then ["prawe_przyl.png", "prawe_przylgowe.png"]
    else if key == "lewe_odwr" then ["lewe_odwr.png", "lewe_odwrotna.png", "lewe_odwrotna_przylga.png"]
    else if key == "prawe_odwr" then ["prawe_odwr.png", "prawe_odwrotna.png", "prawe_odwrotna_przylga.png"]
    else []
  }

  /** `os.path.join(base_dir, filename)` for a base directory ending in '/'. */
  function JoinPath(dir: string, name: string): string { dir + name }

  /** The path at `(i, j)` exists and no path scanned before it does. */
  ghost predicate FoundAt(dirs: seq<string>, names: seq<string>, isFile: string -> bool, i: int, j: int) {
    0 <= i < |dirs| && 0 <= j < |names| && isFile(JoinPath(dirs[i], names[j]))
    && (forall i', j' :: 0 <= i' < i && 0 <= j' < |names| ==> !isFile(JoinPath(dirs[i'], names[j'])))
    && (forall j' :: 0 <= j' < j ==> !isFile(JoinPath(dirs[i], names[j'])))
  }

  /**
   * `path` is the first existing path when the directories are scanned in order and,
   * within each, the names in order; None when none exists.
   */
  ghost predicate IsFirstExisting(dirs: seq<string>, names: seq<string>, isFile: string -> bool, path: Option<string>) {
    (path.None? ==> forall i, j :: 0 <= i < |dirs| && 0 <= j < |names| ==> !isFile(JoinPath(dirs[i], names[j])))
    && (path.Some? ==> exists i, j :: FoundAt(dirs, names, isFile, i, j) && path.value == JoinPath(dirs[i], names[j]))
  }

  lemma FoundAtUnique(dirs: seq<string>, names: seq<string>, isFile: string -> bool, i: int, j: int, k: int, l: int)
    requires FoundAt(dirs, names, isFile, i, j) && FoundAt(dirs, names, isFile, k, l)
    ensures i == k && j == l
  {
  }

  /** A path found anywhere rules out None as the answer. */
  lemma FoundExcludesNone(dirs: seq<string>, names: seq<string>, isFile: string -> bool, i: int, j: int)
    requires FoundAt(dirs, names, isFile, i, j)
    ensures !IsFirstExisting(dirs, names, isFile, None)
  {
  }

  /** The search has one answer: two results that are both first are equal. */
  lemma FirstExistingUnique(dirs: seq<string>, names: seq<string>, isFile: string -> bool, p: Option<string>, q: Option<string>)
    requires IsFirstExisting(dirs, names, isFile, p) && IsFirstExisting(dirs, names, isFile, q)
    ensures p == q
  {
    if p.Some? {
      var i, j :| FoundAt(dirs, names, isFile, i, j) && p.value == JoinPath(dirs[i], names[j]);
      FoundExcludesNone(dirs, names, isFile, i, j);
      if q.Some? {
        var k, l :| FoundAt(dirs, names, isFile, k, l) && q.value == JoinPath(dirs[k], names[l]);
        FoundAtUnique(dirs, names, isFile, i, j, k, l);
      }
    }
    if q.Some? {
      var k, l :| FoundAt(dirs, names, isFile, k, l) && q.value == JoinPath(dirs[k], names[l]);
      FoundExcludesNone(dirs, names, isFile, k, l);
    }
  }

  /** The nested search loop: directories outside, names inside, stop at the first hit. */
  method FindFirstExisting(dirs: seq<string>, names: seq<string>, isFile: string -> bool) returns (path: Option<string>)
    ensures IsFirstExisting(dirs, names, isFile, path)
  {
    path := None;
    var i := 0;
    while i < |dirs|
      invariant 0 <= i <= |dirs|
      invariant forall i', j' :: 0 <= i' < i && 0 <= j' < |names| ==> !isFile(JoinPath(dirs[i'], names[j']))
    {
      var j := 0;
      while j < |names|
        invariant 0 <= j <= |names|
        invariant forall j' :: 0 <= j' < j ==> !isFile(JoinPath(dirs[i], names[j']))
      {
        var candidate := JoinPath(dirs[i], names[j]);
        if isFile(candidate) {
          path := Some(candidate);
          assert FoundAt(dirs, names, isFile, i, j);
          return;
        }
        j := j + 1;
      }
      i := i + 1;
    }
  }

  /**
   * `_find_door_image_helper`: the side chosen by priority and the first existing
   * picture for it; (None, None) when no side is set.
   */
  method FindDoorImage(cfg: Record, isFile: string -> bool) returns (selected: Option<string>, path: Option<string>)
    ensures selected == SelectedSide(cfg)
    ensures selected.None? ==> path.None?
    ensures selected.Some? ==> IsFirstExisting(DoorImageDirs, SideCandidates(selected.value), isFile, path)
  {
    selected := SelectedSide(cfg);
    if selected.None? {
      return None, None;
    }
    path := FindFirstExisting(DoorImageDirs, SideCandidates(selected.value), isFile);
  }

  // ---------------------------------------------------------------------------
  // Door types
  // ---------------------------------------------------------------------------

  /** `type_mappings`, in its insertion order. */
  const TypeMappings: seq<(string, seq<string>)> := [
    ("przylgowe", ["przylgowe.png", "przylg.png"]),
    ("bezprzylgowe", ["bezprzylgowe.png", "bezprzylg.png"]),
    ("odwrotna przylga", ["odwrotna_przylga.png", "odwrotna.png", "odwr.png"]),
    ("inne", ["inne.png", "other.png"])
  ]

  /** `key in door_type_lower or door_type_lower in key`. */
  predicate TypeMatches(key: string, lower: string) {
    SubstringOf(key, lower) || SubstringOf(lower, key)
  }

  function FirstMapping(lower: string, from: nat): (r: Option<nat>)
    decreases |TypeMappings| - from
    ensures r.Some? ==> from <= r.value < |TypeMappings| && TypeMatches(TypeMappings[r.value].0, lower)
    ensures r.Some? ==> forall j :: from <= j < r.value ==> !TypeMatches(TypeMappings[j].0, lower)
    ensures r.None? ==> forall j :: from <= j < |TypeMappings| ==> !TypeMatches(TypeMappings[j].0, lower)
  {
    if from >= |TypeMappings| then None
    else if TypeMatches(TypeMappings[from].0, lower) then Some(from)
    else FirstMapping(lower, from + 1)
  }

  /** The file names tried for a lower-cased door type: the first matching mapping, else the type's own name. */
  function TypeCandidates(lower: string): (r: seq<string>)
    ensures (forall i :: 0 <= i < |TypeMappings| ==> !TypeMatches(TypeMappings[i].0, lower)) ==>
              r == [ReplaceChar(lower, ' ', '_') + ".png"]
    ensures forall i :: (0 <= i < |TypeMappings| && TypeMatches(TypeMappings[i].0, lower)
                         && forall j :: 0 <= j < i ==> !TypeMatches(TypeMappings[j].0, lower)) ==> r == TypeMappings[i].1
  {
    match FirstMapping(lower, 0)
    case Some(i) => TypeMappings[i].1
    case None => [ReplaceChar(lower, ' ', '_') + ".png"]
  }

  /**
   * The substring test matches in both directions and "przylgowe" is listed first, so
   * every door type whose lower-cased text contains "bezprzylgowe" (a rebateless door)
   * gets the rebated door's pictures, never its own.
   */
  lemma BezprzylgoweQuirk(lower: string)
    requires Contains(lower, TypeMappings[1].0)
    ensures TypeCandidates(lower) == TypeMappings[0].1
  {
    var key := TypeMappings[1].0;
    var i :| 0 <= i <= |lower| && OccursAt(lower, key, i);
    assert key[3..] == TypeMappings[0].0;
    assert lower[i + 3..i + |key|] == key[3..];
    assert OccursAt(lower, TypeMappings[0].0, i + 3);
    assert TypeMatches(TypeMappings[0].0, lower);
  }

  /** `_find_door_type_image`: None for an empty type, otherwise the first existing candidate. */
  method FindDoorTypeImage(doorType: string, isFile: string -> bool) returns (path: Option<string>)
    ensures doorType == "" ==> path == None
    ensures doorType != "" ==> IsFirstExisting(DoorTypeDirs, TypeCandidates(Lower(doorType)), isFile, path)
  {
    if doorType == "" {
      return None;
    }
    path := FindFirstExisting(DoorTypeDirs, TypeCandidates(Lower(doorType)), isFile);
  }

  /**
   * The door-type illustration of the door PDF, as written: the type is read from the
   * key 'typ_drzwi/przylgowe.png', which no form writes, and a picture found for it is
   * built with a keyword the picture class does not take, whose TypeError is swallowed.
   * The slot is never filled; a truthy non-string under that key raises on `.lower()`.
   */
  method DoorTypeSlotAsWritten(data: Record, isFile: string -> bool) returns (slot: Result<Option<string>>)
    ensures slot.Ok? ==> slot.value == None
    ensures slot.Raised? <==> Truthy(GetOr(data, "typ_drzwi/przylgowe.png", Str(""))) && !GetOr(data, "typ_drzwi/przylgowe.png", Str("")).Str?
  {
    var doorType := GetOr(data, "typ_drzwi/przylgowe.png", Str(""));
    if !Truthy(doorType) {
      return Ok(None);
    }
    if !doorType.Str? {
      return Raised("AttributeError");
    }
    var path := FindDoorTypeImage(doorType.s, isFile);
    if path.Some? {
      // the picture's constructor rejects `show_overlays`; the except clause drops it
      return Ok(None);
    }
    return Ok(None);
  }

  /** The door-type illustration read from `typ_drzwi` and built with the arguments the picture takes. */
  method DoorTypeSlot(data: Record, isFile: string -> bool) returns (slot: Result<Option<string>>)
    ensures slot.Raised? <==> Truthy(GetOr(data, "typ_drzwi", Str(""))) && !GetOr(data, "typ_drzwi", Str("")).Str?
    ensures !Truthy(GetOr(data, "typ_drzwi", Str(""))) ==> slot == Ok(None)
    ensures GetOr(data, "typ_drzwi", Str("")).Str? && Truthy(GetOr(data, "typ_drzwi", Str(""))) ==>
              slot.Ok? && IsFirstExisting(DoorTypeDirs, TypeCandidates(Lower(GetOr(data, "typ_drzwi", Str("")).s)), isFile, slot.value)
  {
    var doorType := GetOr(data, "typ_drzwi", Str(""));
    if !Truthy(doorType) {
      return Ok(None);
    }
    if !doorType.Str? {
      return Raised("AttributeError");
    }
    var path := FindDoorTypeImage(doorType.s, isFile);
    return Ok(path);
  }

  // ---------------------------------------------------------------------------
  // Skirting boards
  // ---------------------------------------------------------------------------

  /** The five skirting-board counts of a floor order. */
  const SkirtingKeys := ["nw", "nz", "l", "zl", "zp"]

  /** `data.get(k1, 0) + data.get(k2, 0) + …`: a missing key counts 0, a non-number raises. */
  function PieceSum(data: Record, keys: seq<string>): (r: Result<int>)
    ensures r.Ok? <==> forall i :: 0 <= i < |keys| ==> GetOr(data, keys[i], Int(0)).Int?
  {
    if keys == [] then Ok(0)
    else match PieceSum(data, keys[..|keys| - 1])
      case Raised(e) => Raised(e)
      case Ok(n) =>
        match GetOr(data, keys[|keys| - 1], Int(0))
        case Int(m) => Ok(n + m)
        case _ => Raised("TypeError")
  }

  /** The "SUMA LISTW" total of a floor order. */
  function SkirtingSum(data: Record): (r: Result<int>)
    ensures r.Ok? <==> forall k :: k in SkirtingKeys ==> GetOr(data, k, Int(0)).Int?
    ensures (forall k :: k in SkirtingKeys ==> GetOr(data, k, Int(0)).Int? && GetOr(data, k, Int(0)).i >= 0) ==>
              r.Ok? && forall k :: k in SkirtingKeys ==> GetOr(data, k, Int(0)).i <= r.value
  {
    if forall k :: k in SkirtingKeys ==> GetOr(data, k, Int(0)).Int? && GetOr(data, k, Int(0)).i >= 0 then
      PieceSumBounds(data, SkirtingKeys);
      PieceSum(data, SkirtingKeys)
    else PieceSum(data, SkirtingKeys)
  }

  /** Storing an explicit 0 for a missing count changes nothing. */
  lemma {:induction false} MissingPieceIsZero(data: Record, keys: seq<string>, k: string)
    requires k !in data
    ensures PieceSum(data, keys) == PieceSum(data[k := Int(0)], keys)
  {
    if keys != [] {
      MissingPieceIsZero(data, keys[..|keys| - 1], k);
    }
  }

  lemma {:induction false} PieceSumUnchanged(data: Record, keys: seq<string>, k: string, v: Value)
    requires k !in keys
    ensures PieceSum(data[k := v], keys) == PieceSum(data, keys)
  {
    if keys != [] {
      PieceSumUnchanged(data, keys[..|keys| - 1], k, v);
    }
  }

  /** With counts that are not negative, the total is not negative and is at least each count. */
  lemma {:induction false} PieceSumBounds(data: Record, keys: seq<string>)
    requires forall i :: 0 <= i < |keys| ==> GetOr(data, keys[i], Int(0)).Int? && GetOr(data, keys[i], Int(0)).i >= 0
    ensures PieceSum(data, keys).Ok? && PieceSum(data, keys).value >= 0
    ensures forall i :: 0 <= i < |keys| ==> PieceSum(data, keys).value >= GetOr(data, keys[i], Int(0)).i
  {
    if keys != [] {
      PieceSumBounds(data, keys[..|keys| - 1]);
    }
  }

  /** One more piece of a kind counted once raises the total by one. */
  lemma {:induction false} PieceSumStep(data: Record, keys: seq<string>, k: string)
    requires PieceSum(data, keys).Ok? && k in data && data[k].Int?
    requires exists i :: 0 <= i < |keys| && keys[i] == k
    requires forall i, j :: 0 <= i < j < |keys| ==> keys[i] != keys[j]
    ensures PieceSum(data[k := Int(data[k].i + 1)], keys) == Ok(PieceSum(data, keys).value + 1)
  {
    var init, last := keys[..|keys| - 1], keys[|keys| - 1];
    if last == k {
      assert k !in init;
      PieceSumUnchanged(data, init, k, Int(data[k].i + 1));
    } else {
      var i :| 0 <= i < |keys| && keys[i] == k;
      assert init[i] == k;
      PieceSumStep(data, init, k);
    }
  }

  // ---------------------------------------------------------------------------
  // Dispatch and download
  // ---------------------------------------------------------------------------

  datatype Generator = DoorGenerator | FloorGenerator

  /** `generate_pdf_for_order`: only the two order types have a generator. */
  function GeneratePdfForOrder(orderType: string): (r: Result<Generator>)
    ensures r.Ok? <==> orderType == "drzwi" || orderType == "podlogi"
    ensures r == Ok(DoorGenerator) <==> orderType == "drzwi"
  {
    if orderType == "drzwi" then Ok(DoorGenerator)
    else if orderType == "podlogi" then Ok(FloorGenerator)
    else Raised("ValueError")
  }

  /** `.strftime(...)` on a truthy value that is neither a datetime nor a date raises AttributeError. */
  predicate StrftimeRaises(v: Value) {
    Truthy(v) && !v.Time? && !v.Day?
  }

  /** `v + " cm"` and `v.upper()` on a truthy value that is not a string raise. */
  predicate StringOpRaises(v: Value) {
    Truthy(v) && !v.Str?
  }

  /**
   * The field reads both generators make outside any `try`, each guarded by the field
   * being truthy: the creation, measurement and sale dates formatted with `strftime`,
   * the status upper-cased, and (doors only) the wall thickness joined to " cm".
   */
  predicate FieldReadRaises(data: Record, g: Generator) {
    StrftimeRaises(Get(data, "data_utworzenia")) || StrftimeRaises(Get(data, "data_pomiary"))
    || StrftimeRaises(Get(data, "data_sprzedaz")) || StringOpRaises(Get(data, "status"))
    || (g == DoorGenerator && StringOpRaises(Get(data, "grubosc_muru")))
  }

  /**
   * The fields behind each info panel a generator builds without a guard, in dict order
   * (the door PDF's opening-side panel and the floor PDF's skirting panel always have a row).
   */
  function Panels(g: Generator): seq<seq<string>> {
    match g
    case DoorGenerator =>
      [["pomieszczenie", "nazwisko", "telefon", "data_utworzenia", "id"],
       ["producent", "seria", "typ", "rodzaj_okleiny", "ilosc_szyb", "zamek", "szyba", "wentylacja", "klamka"],
       ["szerokosc_otworu", "wysokosc_otworu", "mierzona_od", "grubosc_muru", "stan_sciany"],
       ["typ_drzwi", "oscieznica", "kolor_osc", "opaska", "kat_zaciecia", "prog", "wizjer", "norma"]]
    case FloorGenerator =>
      [["pomieszczenie", "telefon", "data_utworzenia", "id"],
       ["system_montazu", "podklad", "mdf_mozliwy"],
       ["listwy_jaka", "listwy_ile", "listwy_gdzie"],
       ["rodzaj_podlogi", "seria", "kolor", "folia", "listwa_przypodlogowa"]]
  }

  /** A panel's dict: each field with its stored value (a formatted value is truthy exactly when the field is). */
  function PanelEntries(data: Record, keys: seq<string>): (r: seq<(string, Value)>)
    ensures |r| == |keys|
    ensures forall i :: 0 <= i < |keys| ==> r[i] == (keys[i], Get(data, keys[i]))
  {
    seq(|keys|, i requires 0 <= i < |keys| => (keys[i], Get(data, keys[i])))
  }

  /** `Table(table_data)` with no row raises (ReportLab's default `emptyTableAction` is 'error'). */
  predicate EmptyPanelRaises(data: Record, g: Generator) {
    exists i :: 0 <= i < |Panels(g)| && Rows(PanelEntries(data, Panels(g)[i])) == []
  }

  /** A panel has no row exactly when none of its fields is truthy. */
  lemma PanelEmptyIffAllFalsy(data: Record, keys: seq<string>)
    ensures Rows(PanelEntries(data, keys)) == [] <==> forall k :: k in keys ==> !Truthy(Get(data, k))
  {
    var entries := PanelEntries(data, keys);
    RowsFacts(entries);
    if Rows(entries) == [] {
      forall k | k in keys ensures !Truthy(Get(data, k)) {
        var i :| 0 <= i < |keys| && keys[i] == k;
        assert (entries[i].0 + ":", Show(entries[i].1)) !in Rows(entries);
      }
    } else {
      var row := Rows(entries)[0];
      assert row in Rows(entries);
      var i :| 0 <= i < |entries| && Truthy(entries[i].1) && row == (entries[i].0 + ":", Show(entries[i].1));
      assert keys[i] in keys;
    }
  }

  /** A floor order without any threshold-strip field never yields a PDF. */
  lemma FloorPdfNeedsThresholdStrips(data: Record, docId: string, today: Date, layoutFault: bool)
    requires !Truthy(Get(data, "listwy_jaka")) && !Truthy(Get(data, "listwy_ile")) && !Truthy(Get(data, "listwy_gdzie"))
    ensures DisplayPdfDownloadButton(data, "podlogi", docId, today, layoutFault) == None
  {
    var keys := Panels(FloorGenerator)[2];
    PanelEmptyIffAllFalsy(data, keys);
    assert EmptyPanelRaises(data, FloorGenerator);
  }

  /**
   * The reads of the generators, outside any `try`, that raise: the field reads above,
   * an info panel with no row, the door PDF's opening-side dict and door-type key, the
   * floor PDF's skirting total.
   */
  predicate BuildRaises(data: Record, g: Generator) {
    FieldReadRaises(data, g)
    || EmptyPanelRaises(data, g)
    || match g
       case DoorGenerator =>
         OpeningConfig(data).Raised?
         || (Truthy(GetOr(data, "typ_drzwi/przylgowe.png", Str(""))) && !GetOr(data, "typ_drzwi/przylgowe.png", Str("")).Str?)
       case FloorGenerator => SkirtingSum(data).Raised?
  }

  /** `strftime("%Y%m%d")`. */
  function DateStamp(d: Date): (r: string)
    ensures |r| == 8
  {
    PadDigits(if d.year < 0 then 0 else d.year, 4) + PadDigits(if d.month < 0 then 0 else d.month, 2)
    + PadDigits(if d.day < 0 then 0 else d.day, 2)
  }

  /** The stamp reads back as the date's year, month and day, in that order. */
  lemma DateStampDigits(d: Date)
    requires Dates.ValidDate(d)
    ensures var s := DateStamp(d);
            DigitsValue(s[..4]) == d.year && DigitsValue(s[4..6]) == d.month && DigitsValue(s[6..]) == d.day
  {
    var s := DateStamp(d);
    assert s[..4] == PadDigits(d.year, 4) && s[4..6] == PadDigits(d.month, 2) && s[6..] == PadDigits(d.day, 2);
    Dates.Pow10Values();
    PadDigitsRoundTrip(d.year, 4);
    PadDigitsRoundTrip(d.month, 2);
    PadDigitsRoundTrip(d.day, 2);
  }

  /** `f"{order_type}_{pomieszczenie}_{data_str}_{doc_id[:8]}.pdf"`, the room defaulting to 'zamowienie'. */
  function DownloadFileName(data: Record, orderType: string, docId: string, today: Date): string {
    orderType + "_" + Show(GetOr(data, "pomieszczenie", Str("zamowienie"))) + "_" + DateStamp(today)
    + "_" + Prefix(docId, 8) + ".pdf"
  }

  /**
   * `display_pdf_download_button`: the file offered for download, or None when building
   * the PDF raised (the function then returns False). `layoutFault` stands for the layout
   * code raising for reasons outside this model.
   */
  function DisplayPdfDownloadButton(data: Record, orderType: string, docId: string, today: Date, layoutFault: bool)
    : (r: Option<string>)
    ensures r.Some? <==> GeneratePdfForOrder(orderType).Ok? && !BuildRaises(data, GeneratePdfForOrder(orderType).value) && !layoutFault
    ensures r.Some? ==> r.value == DownloadFileName(data, orderType, docId, today)
  {
    match GeneratePdfForOrder(orderType)
    case Raised(_) => None
    case Ok(g) => if BuildRaises(data, g) || layoutFault then None else Some(DownloadFileName(data, orderType, docId, today))
  }

  /** The entrance-door editors ask for a 'drzwi_wejsciowe' PDF, which always fails. */
  lemma EntranceDoorPdfFails(data: Record, docId: string, today: Date, layoutFault: bool)
    ensures DisplayPdfDownloadButton(data, "drzwi_wejsciowe", docId, today, layoutFault) == None
  {
  }

  /** The file name starts with the order type and ends with at most eight characters of the id. */
  lemma DownloadFileNameParts(data: Record, orderType: string, docId: string, today: Date)
    ensures var name := DownloadFileName(data, orderType, docId, today);
      |name| >= |orderType| + 1 && name[..|orderType| + 1] == orderType + "_"
      && var tail := Prefix(docId, 8) + ".pdf";
      |name| >= |tail| && name[|name| - |tail|..] == tail && |Prefix(docId, 8)| <= 8
  {
    var name := DownloadFileName(data, orderType, docId, today);
    var tail := Prefix(docId, 8) + ".pdf";
    var head := orderType + "_" + Show(GetOr(data, "pomieszczenie", Str("zamowienie"))) + "_" + DateStamp(today) + "_";
    assert name == head + tail;
    assert name[..|orderType| + 1] == orderType + "_";
  }
}
