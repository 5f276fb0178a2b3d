/**
 * The folder page: every door, floor and entrance-door record tagged with its kind,
 * the filters (kind, date range, installer, client), the grouping of the records that
 * pass into folders keyed by `name_DD_MM_YYYY`, and the folders newest first.
 */
module FolderView {
  import opened Values
  import opened Dates
  import opened Sorting
  import opened Foldery

  // ---------------------------------------------------------------------------
  // All records with their kind
  // ---------------------------------------------------------------------------

  /** Each record copied with `__type` set to its kind. */
  function Tagged(recs: seq<Record>, kind: string): seq<Record> {
    if recs == [] then [] else [recs[0]["__type" := Str(kind)]] + Tagged(recs[1..], kind)
  }

  lemma {:induction false} TaggedAt(recs: seq<Record>, kind: string, i: nat)
    requires i < |recs|
    ensures |Tagged(recs, kind)| == |recs|
    ensures Tagged(recs, kind)[i] == recs[i]["__type" := Str(kind)]
  {
    if i > 0 {
      TaggedAt(recs[1..], kind, i - 1);
    } else if |recs| > 1 {
      TaggedAt(recs[1..], kind, 0);
    }
  }

  /** One of the three append loops building `all_records`. */
  method AppendTagged(acc: seq<Record>, recs: seq<Record>, kind: string) returns (out: seq<Record>)
    ensures out == acc + Tagged(recs, kind)
  {
    out := acc;
    var i := 0;
    while i < |recs|
      invariant 0 <= i <= |recs|
      invariant out + Tagged(recs[i..], kind) == acc + Tagged(recs, kind)
    {
      assert recs[i..][1..] == recs[i + 1..];
      out := out + [recs[i]["__type" := Str(kind)]];
      i := i + 1;
    }
  }

  /** `all_records`: the door records, then the floor records, then the entrance-door records. */
  method CollectRecords(drzwi: seq<Record>, podlogi: seq<Record>, wejsciowe: seq<Record>)
    returns (all: seq<Record>)
    ensures all == Tagged(drzwi, "drzwi") + Tagged(podlogi, "podlogi") + Tagged(wejsciowe, "drzwi_wejsciowe")
  {
    all := AppendTagged([], drzwi, "drzwi");
    all := AppendTagged(all, podlogi, "podlogi");
    all := AppendTagged(all, wejsciowe, "drzwi_wejsciowe");
  }

  // ---------------------------------------------------------------------------
  // Filters
  // ---------------------------------------------------------------------------

  /**
   * What the filter row holds: the date mode as the select box shows it, the range
   * bounds (set only in range mode), the installer and client texts (already
   * stripped), and the selected kinds.
   */
  datatype Filters = Filters(dateFilter: string, start: Option<Date>, end: Option<Date>,
                             monter: string, klient: string, types: seq<string>)

  predicate DateLe(a: Date, b: Date) { !DateBefore(b, a) }

  /** `today - timedelta(days=n) <= d`, counted in days. */
  predicate WithinDays(d: Date, today: Date, n: nat) {
    ValidDate(d) && ValidDate(today) && Ordinal(d) >= Ordinal(today) - n
  }

  /** `_in_date`: the date filter on a record's datetime. */
  predicate InDate(f: Filters, today: Date, dt: DateTime) {
    var d := dt.date;
    if f.dateFilter == "Wszystko" then true
    else if f.dateFilter == "Dziś" then d == today
    else if f.dateFilter == "Ostatnie 7 dni" then WithinDays(d, today, 7)
    else if f.dateFilter == "Ostatnie 30 dni" then WithinDays(d, today, 30)
    else if f.dateFilter == "Zakres..." then
      if f.start.None? || f.end.None? then true
      else DateLe(f.start.value, d) && DateLe(d, f.end.value)
    else true
  }

  /**
   * The date modes nest (today, the last 7 days, the last 30 days, everything), the
   * range includes both bounds, and a range missing a bound lets everything through.
   */
  lemma InDateModes(f: Filters, today: Date, dt: DateTime)
    requires ValidDate(today) && ValidDate(dt.date)
    ensures InDate(f.(dateFilter := "Dziś"), today, dt) ==> InDate(f.(dateFilter := "Ostatnie 7 dni"), today, dt)
    ensures InDate(f.(dateFilter := "Ostatnie 7 dni"), today, dt) ==> InDate(f.(dateFilter := "Ostatnie 30 dni"), today, dt)
    ensures f.dateFilter == "Zakres..." && f.start == Some(dt.date) && f.end.Some? && DateLe(dt.date, f.end.value) ==> InDate(f, today, dt)
    ensures f.dateFilter == "Zakres..." && f.end == Some(dt.date) && f.start.Some? && DateLe(f.start.value, dt.date) ==> InDate(f, today, dt)
    ensures f.dateFilter == "Zakres..." && (f.start.None? || f.end.None?) ==> InDate(f, today, dt)
  {
  }

  /** `needle and needle.lower() not in str(value).lower()`, negated: the text filter passes. */
  predicate TextMatches(needle: string, value: Value) {
    needle == "" || SubstringOf(Lower(needle), Lower(Show(value)))
  }

  /** A filtered record with the folder key and datetime the loop writes into it. */
  datatype Entry = Entry(rec: Record, folder: string, dt: DateTime)

  predicate TypeSelected(f: Filters, rec: Record) {
    var t := Get(rec, "__type");
    t.Str? && t.s in f.types
  }

  /** One pass of the filter loop: skip, keep (with folder and datetime), or raise. */
  function Admit(fold: char -> string, f: Filters, today: Date, rec: Record): (r: Result<Option<Entry>>)
    ensures r.Raised? <==> TypeSelected(f, rec) && FolderName(fold, rec).Raised?
    ensures r.Ok? && r.value.Some? <==>
              TypeSelected(f, rec) && FolderName(fold, rec).Ok?
              && InDate(f, today, FolderName(fold, rec).value.1)
              && TextMatches(f.monter, GetOr(rec, "monter_id", Str("")))
              && TextMatches(f.klient, GetOr(rec, "imie_nazwisko", Str("")))
    ensures r.Ok? && r.value.Some? ==>
              r.value.value == Entry(rec, FolderName(fold, rec).value.0, FolderName(fold, rec).value.1)
  {
    if !TypeSelected(f, rec) then Ok(None)
    else match FolderName(fold, rec)
      case Raised(e) => Raised(e)
      case Ok(p) =>
        if !InDate(f, today, p.1) then Ok(None)
        else if !TextMatches(f.monter, GetOr(rec, "monter_id", Str(""))) then Ok(None)
        else if !TextMatches(f.klient, GetOr(rec, "imie_nazwisko", Str(""))) then Ok(None)
        else Ok(Some(Entry(rec, p.0, p.1)))
  }

  /** A filter loop over a list of records: the kept results in order, or the first exception. */
  function FilterWith<T>(step: Record -> Result<Option<T>>, recs: seq<Record>): Result<seq<T>> {
    if recs == [] then Ok([])
    else match FilterWith(step, recs[..|recs| - 1])
      case Raised(e) => Raised(e)
      case Ok(es) =>
        match step(recs[|recs| - 1])
        case Raised(e) => Raised(e)
        case Ok(None) => Ok(es)
        case Ok(Some(e)) => Ok(es + [e])
  }

  /** The loop raises exactly when some record raises. */
  lemma {:induction false} FilterWithRaises<T>(step: Record -> Result<Option<T>>, recs: seq<Record>)
    ensures FilterWith(step, recs).Raised? <==> exists i :: 0 <= i < |recs| && step(recs[i]).Raised?
  {
    if recs != [] {
      var init := recs[..|recs| - 1];
      FilterWithRaises(step, init);
      assert forall i :: 0 <= i < |init| ==> init[i] == recs[i];
    }
  }

  /** Otherwise a result is kept exactly when some record's step yields it. */
  lemma {:induction false} FilterWithMembers<T>(step: Record -> Result<Option<T>>, recs: seq<Record>)
    requires FilterWith(step, recs).Ok?
    ensures |FilterWith(step, recs).value| <= |recs|
    ensures forall e :: e in FilterWith(step, recs).value <==>
              exists i :: 0 <= i < |recs| && step(recs[i]) == Ok(Some(e))
  {
    if recs != [] {
      var init := recs[..|recs| - 1];
      FilterWithMembers(step, init);
      assert forall i :: 0 <= i < |init| ==> init[i] == recs[i];
      var es := FilterWith(step, init).value;
      forall e ensures e in FilterWith(step, recs).value <==>
                exists i :: 0 <= i < |recs| && step(recs[i]) == Ok(Some(e))
      {
        if exists i :: 0 <= i < |recs| && step(recs[i]) == Ok(Some(e)) {
          var i :| 0 <= i < |recs| && step(recs[i]) == Ok(Some(e));
          if i < |init| {
            assert init[i] == recs[i];
          }
        }
      }
    }
  }

  /** Once the loop has raised, the records after do not matter. */
  lemma {:induction false} RaisedPersists<T>(step: Record -> Result<Option<T>>, recs: seq<Record>, k: nat)
    requires k <= |recs| && FilterWith(step, recs[..k]).Raised?
    ensures FilterWith(step, recs) == FilterWith(step, recs[..k])
  {
    if k < |recs| {
      assert recs[..|recs| - 1][..k] == recs[..k];
      RaisedPersists(step, recs[..|recs| - 1], k);
    } else {
      assert recs[..k] == recs;
    }
  }

  /** The filter loop of the folder page as a function of its records. */
  function Filtered(fold: char -> string, f: Filters, today: Date, recs: seq<Record>): Result<seq<Entry>> {
    FilterWith(rec => Admit(fold, f, today, rec), recs)
  }

  /**
   * The folder page raises exactly when some record of a selected kind has a name that
   * is not a string; otherwise it keeps, in order, exactly the records that pass every
   * filter, each with its folder key and datetime.
   */
  lemma FilteredMembers(fold: char -> string, f: Filters, today: Date, recs: seq<Record>)
    ensures Filtered(fold, f, today, recs).Raised? <==>
              exists i :: 0 <= i < |recs| && TypeSelected(f, recs[i]) && FolderName(fold, recs[i]).Raised?
    ensures Filtered(fold, f, today, recs).Ok? ==>
              forall e :: e in Filtered(fold, f, today, recs).value <==>
                exists i :: 0 <= i < |recs| && Admit(fold, f, today, recs[i]) == Ok(Some(e))
  {
    var step := rec => Admit(fold, f, today, rec);
    FilterWithRaises(step, recs);
    if FilterWith(step, recs).Ok? {
      FilterWithMembers(step, recs);
    }
  }

  /** The filter loop of the folder page. */
  method FilterRecords(fold: char -> string, f: Filters, today: Date, recs: seq<Record>)
    returns (r: Result<seq<Entry>>)
    ensures r == Filtered(fold, f, today, recs)
  {
    ghost var step := rec => Admit(fold, f, today, rec);
    var filtered: seq<Entry> := [];
    var i := 0;
    while i < |recs|
      invariant 0 <= i <= |recs|
      invariant FilterWith(step, recs[..i]) == Ok(filtered)
    {
      assert recs[..i + 1][..i] == recs[..i];
      var a := Admit(fold, f, today, recs[i]);
      if a.Raised? {
        RaisedPersists(step, recs, i + 1);
        return Raised(a.error);
      }
      if a.value.Some? {
        filtered := filtered + [a.value.value];
      }
      i := i + 1;
    }
    assert recs[..i] == recs;
    return Ok(filtered);
  }

  // ---------------------------------------------------------------------------
  // Folders
  // ---------------------------------------------------------------------------

  /** A folder: the datetime of its first record and its records in filtered order. */
  datatype Group = Group(dt: DateTime, items: seq<Entry>)

  /** The folder keys in order of first appearance (the insertion order of the dict). */
  function FolderOrder(es: seq<Entry>): seq<string> {
    if es == [] then []
    else
      var o := FolderOrder(es[..|es| - 1]);
      if es[|es| - 1].folder in o then o else o + [es[|es| - 1].folder]
  }

  /** The entries of one folder, in filtered order. */
  function ItemsOf(es: seq<Entry>, name: string): seq<Entry> {
    if es == [] then []
    else ItemsOf(es[..|es| - 1], name) + (if es[|es| - 1].folder == name then [es[|es| - 1]] else [])
  }

  lemma {:induction false} FolderOrderFacts(es: seq<Entry>)
    ensures forall n :: n in FolderOrder(es) <==> exists i :: 0 <= i < |es| && es[i].folder == n
    ensures forall i, j :: 0 <= i < j < |FolderOrder(es)| ==> FolderOrder(es)[i] != FolderOrder(es)[j]
  {
    if es != [] {
      var init := es[..|es| - 1];
      FolderOrderFacts(init);
      assert forall i :: 0 <= i < |init| ==> init[i] == es[i];
    }
  }

  lemma {:induction false} ItemsOfFacts(es: seq<Entry>, name: string)
    ensures forall e :: e in ItemsOf(es, name) <==> e in es && e.folder == name
    ensures ItemsOf(es, name) == [] <==> forall i :: 0 <= i < |es| ==> es[i].folder != name
  {
    if es != [] {
      var init := es[..|es| - 1];
      ItemsOfFacts(init, name);
      assert es == init + [es[|es| - 1]];
    }
  }

  /** The number of entries in the listed folders. */
  function CountItems(es: seq<Entry>, names: seq<string>): nat {
    if names == [] then 0 else |ItemsOf(es, names[0])| + CountItems(es, names[1..])
  }

  lemma {:induction false} CountItemsAppend(es: seq<Entry>, a: seq<string>, b: seq<string>)
    ensures CountItems(es, a + b) == CountItems(es, a) + CountItems(es, b)
  {
    if a == [] {
      assert a + b == b;
    } else {
      assert (a + b)[0] == a[0] && (a + b)[1..] == a[1..] + b;
      CountItemsAppend(es, a[1..], b);
    }
  }

  lemma {:induction false} CountItemsStep(es: seq<Entry>, e: Entry, names: seq<string>)
    requires forall i, j :: 0 <= i < j < |names| ==> names[i] != names[j]
    ensures CountItems(es + [e], names) == CountItems(es, names) + (if e.folder in names then 1 else 0)
  {
    if names != [] {
      assert (es + [e])[..|es + [e]| - 1] == es;
      CountItemsStep(es, e, names[1..]);
      assert e.folder in names <==> e.folder == names[0] || e.folder in names[1..];
    }
  }

  /** The folders partition the filtered records: their sizes add up to the total. */
  lemma {:induction false} FoldersPartition(es: seq<Entry>)
    ensures CountItems(es, FolderOrder(es)) == |es|
  {
    if es != [] {
      var init, e := es[..|es| - 1], es[|es| - 1];
      assert es == init + [e];
      FoldersPartition(init);
      var o := FolderOrder(init);
      FolderOrderFacts(init);
      CountItemsStep(init, e, o);
      if e.folder !in o {
        CountItemsAppend(es, o, [e.folder]);
        ItemsOfFacts(init, e.folder);
        assert ItemsOf(es, e.folder) == [e];
        assert CountItems(es, [e.folder]) == 1;
      }
    }
  }

  /** One more entry of the prefix: the folder order and the item lists grow by that entry. */
  lemma PrefixStep(es: seq<Entry>, i: int)
    requires 0 <= i < |es|
    ensures FolderOrder(es[..i + 1])
            == if es[i].folder in FolderOrder(es[..i]) then FolderOrder(es[..i]) else FolderOrder(es[..i]) + [es[i].folder]
    ensures forall n :: ItemsOf(es[..i + 1], n) == ItemsOf(es[..i], n) + (if es[i].folder == n then [es[i]] else [])
  {
    assert es[..i + 1][..i] == es[..i] && es[..i + 1][i] == es[i];
  }

  /** A folder not yet in the order has no items so far. */
  lemma NewFolderHasNoItems(es: seq<Entry>, name: string)
    requires name !in FolderOrder(es)
    ensures ItemsOf(es, name) == []
  {
    FolderOrderFacts(es);
    ItemsOfFacts(es, name);
  }

  /** `groups` and its key order hold the entries of `es`, grouped by folder. */
  ghost predicate Grouped(es: seq<Entry>, order: seq<string>, groups: map<string, Group>) {
    order == FolderOrder(es)
    && (forall n :: n in groups <==> n in order)
    && (forall n :: n in groups ==> groups[n].items == ItemsOf(es, n))
    && (forall n :: n in groups ==> groups[n].items != [] && groups[n].dt == groups[n].items[0].dt)
  }

  /** One turn of the grouping loop: `e` appended to its folder's group, opened if new. */
  ghost predicate GroupAdd(e: Entry, order: seq<string>, groups: map<string, Group>,
                           order2: seq<string>, groups2: map<string, Group>) {
    var f := e.folder;
    order2 == (if f in groups then order else order + [f])
    && groups2 == groups[f := if f in groups then Group(groups[f].dt, groups[f].items + [e]) else Group(e.dt, [e])]
  }

  /** One turn of the grouping loop keeps the grouping exact for the longer prefix. */
  lemma GroupStep(es: seq<Entry>, i: int, order: seq<string>, groups: map<string, Group>,
                  order2: seq<string>, groups2: map<string, Group>)
    requires 0 <= i < |es| && Grouped(es[..i], order, groups)
    requires GroupAdd(es[i], order, groups, order2, groups2)
    ensures Grouped(es[..i + 1], order2, groups2)
  {
    PrefixStep(es, i);
    GroupStepItems(es, i, order, groups, order2, groups2);
    GroupStepHeads(es[i], groups, groups2);
  }

  lemma GroupStepItems(es: seq<Entry>, i: int, order: seq<string>, groups: map<string, Group>,
                       order2: seq<string>, groups2: map<string, Group>)
    requires 0 <= i < |es| && Grouped(es[..i], order, groups)
    requires GroupAdd(es[i], order, groups, order2, groups2)
    ensures forall n :: n in groups2 ==> groups2[n].items == ItemsOf(es[..i + 1], n)
  {
    var e := es[i];
    PrefixStep(es, i);
    if e.folder !in groups {
      NewFolderHasNoItems(es[..i], e.folder);
    }
    forall n | n in groups2
      ensures groups2[n].items == ItemsOf(es[..i + 1], n)
    {
      if n != e.folder {
        assert groups2[n] == groups[n];
      }
    }
  }

  lemma GroupStepHeads(e: Entry, groups: map<string, Group>, groups2: map<string, Group>)
    requires forall n :: n in groups ==> groups[n].items != [] && groups[n].dt == groups[n].items[0].dt
    requires groups2 == groups[e.folder := if e.folder in groups then Group(groups[e.folder].dt, groups[e.folder].items + [e])
                                           else Group(e.dt, [e])]
    ensures forall n :: n in groups2 ==> groups2[n].items != [] && groups2[n].dt == groups2[n].items[0].dt
  {
    forall n | n in groups2
      ensures groups2[n].items != [] && groups2[n].dt == groups2[n].items[0].dt
    {
      if n != e.folder {
        assert groups2[n] == groups[n];
      }
    }
  }

  /**
   * The grouping loop: `groups` as an insertion-ordered dict, given by its key order
   * and its key-to-folder map.
   */
  method GroupByFolder(es: seq<Entry>) returns (order: seq<string>, groups: map<string, Group>)
    ensures order == FolderOrder(es)
    ensures groups.Keys == set n | n in order
    ensures forall n :: n in groups ==> groups[n].items == ItemsOf(es, n)
    ensures forall n :: n in groups ==> groups[n].items != [] && groups[n].dt == groups[n].items[0].dt
  {
    order, groups := [], map[];
    var i := 0;
    while i < |es|
      invariant 0 <= i <= |es|
      invariant Grouped(es[..i], order, groups)
    {
      var e := es[i];
      ghost var order0, groups0 := order, groups;
      if e.folder !in groups {
        groups := groups[e.folder := Group(e.dt, [])];
        order := order + [e.folder];
      }
      groups := groups[e.folder := Group(groups[e.folder].dt, groups[e.folder].items + [e])];
      assert [] + [e] == [e];
      GroupStep(es, i, order0, groups0, order, groups);
      i := i + 1;
    }
    assert es[..i] == es;
    assert groups.Keys == set n | n in order;
  }

  // ---------------------------------------------------------------------------
  // Folders newest first
  // ---------------------------------------------------------------------------

  /** `groups.items()`. */
  function GroupItems(order: seq<string>, groups: map<string, Group>): seq<(string, Group)>
    requires forall n :: n in order ==> n in groups
  {
    seq(|order|, i requires 0 <= i < |order| => (order[i], groups[order[i]]))
  }

  /** The folder's datetime as the sort compares it. */
  function GroupKey(p: (string, Group)): Key { KTime(p.1.dt) }

  /**
   * The folder's datetime is timezone-aware: its first record's date is a stored
   * timestamp. A date, an ISO string or the `datetime.min` fallback gives a naive one.
   */
  predicate GroupAware(g: Group) {
    g.items != [] && DateSource(g.items[0].rec).Time?
  }

  /** Two folders whose datetimes Python refuses to compare: one aware, one naive. */
  predicate MixedAwareness(ps: seq<(string, Group)>) {
    exists i, j :: 0 <= i < |ps| && 0 <= j < |ps| && GroupAware(ps[i].1) && !GroupAware(ps[j].1)
  }

  /**
   * `sorted(groups.items(), key=lambda kv: kv[1]['dt'], reverse=True)`: raises
   * TypeError (uncaught, so the page stops) when aware and naive datetimes meet.
   */
  function SortGroups(order: seq<string>, groups: map<string, Group>): Result<seq<(string, Group)>>
    requires forall n :: n in order ==> n in groups
  {
    var ps := GroupItems(order, groups);
    if MixedAwareness(ps) then Raised("TypeError") else Ok(SortDesc(ps, GroupKey))
  }

  /**
   * The folder list raises exactly when an aware and a naive folder datetime meet;
   * otherwise it shows every folder once, newest first, and folders with the same
   * datetime in the order their first record was filtered.
   */
  lemma SortGroupsCorrect(order: seq<string>, groups: map<string, Group>)
    requires forall n :: n in order ==> n in groups
    ensures SortGroups(order, groups).Raised? <==>
              exists m, n :: m in order && n in order && GroupAware(groups[m]) && !GroupAware(groups[n])
    ensures SortGroups(order, groups).Ok? ==>
              var r := SortGroups(order, groups).value;
              multiset(r) == multiset(GroupItems(order, groups))
              && SortedDesc(r, GroupKey)
              && forall k :: WithKey(r, GroupKey, k) == WithKey(GroupItems(order, groups), GroupKey, k)
  {
    var ps := GroupItems(order, groups);
    if MixedAwareness(ps) {
      var i, j :| 0 <= i < |ps| && 0 <= j < |ps| && GroupAware(ps[i].1) && !GroupAware(ps[j].1);
      assert order[i] in order && order[j] in order;
    }
    if exists m, n :: m in order && n in order && GroupAware(groups[m]) && !GroupAware(groups[n]) {
      var m, n :| m in order && n in order && GroupAware(groups[m]) && !GroupAware(groups[n]);
      var i, j :| 0 <= i < |order| && 0 <= j < |order| && order[i] == m && order[j] == n;
      assert ps[i].1 == groups[m] && ps[j].1 == groups[n];
    }
    SortDescCorrect(ps, GroupKey);
  }
}
