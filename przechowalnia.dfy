/**
 * The draft store page ("Wymiary"): finalising every listed draft, the per-room counts
 * and the room filter, the per-kind counts, the opening-side radio of the door-draft
 * editor and the guard on rewriting a draft's images.
 */
module Przechowalnia {
  import opened Values
  import opened Sorting

  // ---------------------------------------------------------------------------
  // Finalising every listed draft
  // ---------------------------------------------------------------------------

  /** What one `finalize_draft(db, draft_id)` call did: returned `(doc_id, kod)`, or raised. */
  datatype Outcome = Returned(docId: Value, code: Value) | Failed(message: string)

  /** One line of the results list; `error` is present only when the call raised. */
  datatype Entry =
    | Success(draftId: Value, docId: Value, code: Value, kind: Value, client: Value, room: Value)
    | Failure(draftId: Value, error: Option<string>, kind: Value, client: Value, room: Value)

  /** The two counters, the results list, and the ids `finalize_draft` was called with. */
  datatype Summary = Summary(successes: nat, errors: nat, results: seq<Entry>, calls: seq<Value>)

  function DraftId(d: Record): Value { Get(d, "id") }
  function Kind(d: Record): Value { GetOr(d, "collection_target", Str("")) }
  function Client(d: Record): Value { GetOr(d, "imie_nazwisko", Str("")) }
  function Room(d: Record): Value { GetOr(d, "pomieszczenie", Str("")) }

  /** A draft counts as finalised when the call returned a truthy document id. */
  predicate Succeeds(finalize: Value -> Outcome, id: Value) {
    finalize(id).Returned? && Truthy(finalize(id).docId)
  }

  /** The loop of `finalize_all_drafts` over a list of drafts, `finalize` standing for `finalize_draft`. */
  function Finalized(drafts: seq<Record>, finalize: Value -> Outcome): Summary {
    if drafts == [] then Summary(0, 0, [], [])
    else
      var s := Finalized(drafts[..|drafts| - 1], finalize);
      var d := drafts[|drafts| - 1];
      var id := DraftId(d);
      if !Truthy(id) then s.(errors := s.errors + 1)
      else match finalize(id)
        case Returned(docId, code) =>
          if Truthy(docId) then
            Summary(s.successes + 1, s.errors,
                    s.results + [Success(id, docId, code, Kind(d), Client(d), Room(d))], s.calls + [id])
          else
            Summary(s.successes, s.errors + 1,
                    s.results + [Failure(id, None, Kind(d), Client(d), Room(d))], s.calls + [id])
        case Failed(message) =>
          Summary(s.successes, s.errors + 1,
                  s.results + [Failure(id, Some(message), Kind(d), Client(d), Room(d))], s.calls + [id])
  }

  /** The ids of the drafts that have one, in list order. */
  function DraftIds(drafts: seq<Record>): seq<Value> {
    if drafts == [] then []
    else DraftIds(drafts[..|drafts| - 1])
         + (if Truthy(DraftId(drafts[|drafts| - 1])) then [DraftId(drafts[|drafts| - 1])] else [])
  }

  function CountSuccesses(results: seq<Entry>): nat {
    if results == [] then 0
    else CountSuccesses(results[..|results| - 1]) + (if results[|results| - 1].Success? then 1 else 0)
  }

  /**
   * Every draft is counted once, as a success or an error; `finalize_draft` is called
   * once per draft with an id, in list order; each call has one result line, which is a
   * success exactly when the call returned a truthy document id and carries an error
   * message exactly when the call raised; the success counter counts the success lines.
   */
  lemma {:induction false} FinalizedCorrect(drafts: seq<Record>, finalize: Value -> Outcome)
    ensures Finalized(drafts, finalize).successes + Finalized(drafts, finalize).errors == |drafts|
    ensures Finalized(drafts, finalize).calls == DraftIds(drafts)
    ensures |Finalized(drafts, finalize).results| == |Finalized(drafts, finalize).calls|
    ensures forall k :: 0 <= k < |Finalized(drafts, finalize).results| ==>
              var e, id := Finalized(drafts, finalize).results[k], Finalized(drafts, finalize).calls[k];
              e.draftId == id && (e.Success? <==> Succeeds(finalize, id))
              && (e.Failure? ==> (e.error.Some? <==> finalize(id).Failed?))
    ensures Finalized(drafts, finalize).successes == CountSuccesses(Finalized(drafts, finalize).results)
  {
    FinalizedCounts(drafts, finalize);
    FinalizedEntries(drafts, finalize);
  }

  /** The counters and the call list of the loop. */
  lemma {:induction false} FinalizedCounts(drafts: seq<Record>, finalize: Value -> Outcome)
    ensures Finalized(drafts, finalize).successes + Finalized(drafts, finalize).errors == |drafts|
    ensures Finalized(drafts, finalize).calls == DraftIds(drafts)
    ensures |Finalized(drafts, finalize).results| == |Finalized(drafts, finalize).calls|
    ensures Finalized(drafts, finalize).successes == CountSuccesses(Finalized(drafts, finalize).results)
  {
    if drafts != [] {
      var init := drafts[..|drafts| - 1];
      var s := Finalized(init, finalize);
      FinalizedCounts(init, finalize);
      var r := Finalized(drafts, finalize);
      if Truthy(DraftId(drafts[|drafts| - 1])) {
        assert r.results[..|r.results| - 1] == s.results;
      }
    }
  }

  /** The result lines of the loop, one per call, in call order. */
  lemma {:induction false} FinalizedEntries(drafts: seq<Record>, finalize: Value -> Outcome)
    ensures |Finalized(drafts, finalize).results| == |Finalized(drafts, finalize).calls|
    ensures forall k :: 0 <= k < |Finalized(drafts, finalize).results| ==>
              var e, id := Finalized(drafts, finalize).results[k], Finalized(drafts, finalize).calls[k];
              e.draftId == id && (e.Success? <==> Succeeds(finalize, id))
              && (e.Failure? ==> (e.error.Some? <==> finalize(id).Failed?))
  {
    if drafts != [] {
      var init := drafts[..|drafts| - 1];
      var s := Finalized(init, finalize);
      FinalizedEntries(init, finalize);
      var r := Finalized(drafts, finalize);
      if Truthy(DraftId(drafts[|drafts| - 1])) {
        assert forall k :: 0 <= k < |s.results| ==> r.results[k] == s.results[k] && r.calls[k] == s.calls[k];
      }
    }
  }

  /**
   * `finalize_all_drafts`: an empty list only warns (None, no call is made); otherwise
   * the counters and results of the loop.
   */
  method FinalizeAllDrafts(drafts: seq<Record>, finalize: Value -> Outcome) returns (r: Option<Summary>)
    ensures drafts == [] ==> r == None
    ensures drafts != [] ==> r == Some(Finalized(drafts, finalize))
  {
    if drafts == [] {
      return None;
    }
    var successes, errors := 0, 0;
    var results: seq<Entry> := [];
    var calls: seq<Value> := [];
    var i := 0;
    while i < |drafts|
      invariant 0 <= i <= |drafts|
      invariant Summary(successes, errors, results, calls) == Finalized(drafts[..i], finalize)
    {
      var d := drafts[i];
      assert drafts[..i + 1][..i] == drafts[..i] && drafts[..i + 1][i] == d;
      var id := DraftId(d);
      if !Truthy(id) {
        errors := errors + 1;
      } else {
        calls := calls + [id];
        match finalize(id)
        case Returned(docId, code) =>
          if Truthy(docId) {
            successes := successes + 1;
            results := results + [Success(id, docId, code, Kind(d), Client(d), Room(d))];
          } else {
            errors := errors + 1;
            results := results + [Failure(id, None, Kind(d), Client(d), Room(d))];
          }
        case Failed(message) =>
          errors := errors + 1;
          results := results + [Failure(id, Some(message), Kind(d), Client(d), Room(d))];
      }
      i := i + 1;
    }
    assert drafts[..i] == drafts;
    return Some(Summary(successes, errors, results, calls));
  }

  // ---------------------------------------------------------------------------
  // Rooms
  // ---------------------------------------------------------------------------

  /** The non-empty rooms in order of first appearance (the insertion order of `room_counts`). */
  function Rooms(drafts: seq<Record>): seq<Value> {
    if drafts == [] then []
    else
      var o := Rooms(drafts[..|drafts| - 1]);
      var room := Room(drafts[|drafts| - 1]);
      if !Truthy(room) || room in o then o else o + [room]
  }

  /** The drafts in one room, in list order. */
  function InRoom(drafts: seq<Record>, room: Value): seq<Record> {
    if drafts == [] then []
    else InRoom(drafts[..|drafts| - 1], room) + (if Room(drafts[|drafts| - 1]) == room then [drafts[|drafts| - 1]] else [])
  }

  /** The drafts that have a non-empty room. */
  function WithRoom(drafts: seq<Record>): seq<Record> {
    if drafts == [] then []
    else WithRoom(drafts[..|drafts| - 1]) + (if Truthy(Room(drafts[|drafts| - 1])) then [drafts[|drafts| - 1]] else [])
  }

  lemma {:induction false} RoomsFacts(drafts: seq<Record>)
    ensures forall r :: r in Rooms(drafts) <==> Truthy(r) && exists i :: 0 <= i < |drafts| && Room(drafts[i]) == r
    ensures forall i, j :: 0 <= i < j < |Rooms(drafts)| ==> Rooms(drafts)[i] != Rooms(drafts)[j]
  {
    if drafts != [] {
      var init := drafts[..|drafts| - 1];
      RoomsFacts(init);
      assert forall i :: 0 <= i < |init| ==> init[i] == drafts[i];
    }
  }

  /** The room filter keeps exactly the drafts of that room, in their order. */
  lemma {:induction false} InRoomFacts(drafts: seq<Record>, room: Value)
    ensures forall d :: d in InRoom(drafts, room) <==> d in drafts && Room(d) == room
    ensures InRoom(drafts, room) == [] <==> forall i :: 0 <= i < |drafts| ==> Room(drafts[i]) != room
  {
    if drafts != [] {
      var init := drafts[..|drafts| - 1];
      InRoomFacts(init, room);
      assert drafts == init + [drafts[|drafts| - 1]];
    }
  }

  lemma {:induction false} InRoomAppend(a: seq<Record>, b: seq<Record>, room: Value)
    ensures InRoom(a + b, room) == InRoom(a, room) + InRoom(b, room)
  {
    if b == [] {
      assert a + b == a;
    } else {
      assert (a + b)[..|a + b| - 1] == a + b[..|b| - 1];
      InRoomAppend(a, b[..|b| - 1], room);
    }
  }

  /** The number of drafts in the listed rooms. */
  function CountInRooms(drafts: seq<Record>, rooms: seq<Value>): nat {
    if rooms == [] then 0 else |InRoom(drafts, rooms[0])| + CountInRooms(drafts, rooms[1..])
  }

  lemma {:induction false} CountInRoomsAppend(drafts: seq<Record>, a: seq<Value>, b: seq<Value>)
    ensures CountInRooms(drafts, a + b) == CountInRooms(drafts, a) + CountInRooms(drafts, b)
  {
    if a == [] {
      assert a + b == b;
    } else {
      assert (a + b)[0] == a[0] && (a + b)[1..] == a[1..] + b;
      CountInRoomsAppend(drafts, a[1..], b);
    }
  }

  lemma {:induction false} CountInRoomsStep(drafts: seq<Record>, d: Record, rooms: seq<Value>)
    requires forall i, j :: 0 <= i < j < |rooms| ==> rooms[i] != rooms[j]
    ensures CountInRooms(drafts + [d], rooms) == CountInRooms(drafts, rooms) + (if Room(d) in rooms then 1 else 0)
  {
    if rooms != [] {
      assert (drafts + [d])[..|drafts + [d]| - 1] == drafts;
      CountInRoomsStep(drafts, d, rooms[1..]);
      assert Room(d) in rooms <==> Room(d) == rooms[0] || Room(d) in rooms[1..];
    }
  }

  /** The room counts add up to the number of drafts that name a room. */
  lemma {:induction false} RoomCountsSum(drafts: seq<Record>)
    ensures CountInRooms(drafts, Rooms(drafts)) == |WithRoom(drafts)|
  {
    if drafts != [] {
      var init, d := drafts[..|drafts| - 1], drafts[|drafts| - 1];
      assert drafts == init + [d];
      RoomCountsSum(init);
      var o := Rooms(init);
      RoomsFacts(init);
      CountInRoomsStep(init, d, o);
      if Truthy(Room(d)) && Room(d) !in o {
        CountInRoomsAppend(drafts, o, [Room(d)]);
        InRoomFacts(init, Room(d));
        assert InRoom(drafts, Room(d)) == [d];
        assert CountInRooms(drafts, [Room(d)]) == 1;
      }
      if !Truthy(Room(d)) {
        assert Room(d) !in o;
      }
    }
  }

  /** A room Python can use as a dict key: falsy (skipped), or not a dict or list. */
  predicate KeyableRoom(room: Value) {
    !Truthy(room) || !(room.Dict? || room.List?)
  }

  /** `order` and `counts` are `room_counts` after the drafts `seen`. */
  predicate Counted(seen: seq<Record>, order: seq<Value>, counts: map<Value, nat>) {
    && order == Rooms(seen)
    && counts.Keys == (set r | r in order)
    && forall r :: r in counts ==> counts[r] == |InRoom(seen, r)|
  }

  /** The new count after one more draft, whose room is `room`. */
  function Bump(counts: map<Value, nat>, room: Value): map<Value, nat> {
    if !Truthy(room) then counts
    else counts[room := if room in counts then counts[room] + 1 else 1]
  }

  /** One pass of the counting loop keeps `Counted`. */
  lemma CountStep(drafts: seq<Record>, i: nat, order: seq<Value>, counts: map<Value, nat>)
    requires i < |drafts| && Counted(drafts[..i], order, counts)
    requires forall j :: 0 <= j < i ==> KeyableRoom(Room(drafts[j]))
    requires KeyableRoom(Room(drafts[i]))
    ensures forall j :: 0 <= j < i + 1 ==> KeyableRoom(Room(drafts[j]))
    ensures var room := Room(drafts[i]);
      Counted(drafts[..i + 1], if Truthy(room) && room !in counts then order + [room] else order,
              Bump(counts, room))
  {
    var seen, all := drafts[..i], drafts[..i + 1];
    assert all[..|all| - 1] == seen && all[|all| - 1] == drafts[i];
    CountStepOrder(seen, drafts[i], order, counts);
    CountStepCounts(seen, drafts[i], order, counts);
  }

  /** The key order after one more draft: a new non-empty room joins at the end. */
  lemma CountStepOrder(seen: seq<Record>, d: Record, order: seq<Value>, counts: map<Value, nat>)
    requires order == Rooms(seen) && counts.Keys == (set r | r in order)
    ensures var room := Room(d);
      var order' := if Truthy(room) && room !in counts then order + [room] else order;
      && order' == Rooms(seen + [d])
      && Bump(counts, room).Keys == (set r | r in order')
  {
    var all := seen + [d];
    assert all[..|all| - 1] == seen && all[|all| - 1] == d;
  }

  /** The counts after one more draft: its room's count goes up by one, no other changes. */
  lemma CountStepCounts(seen: seq<Record>, d: Record, order: seq<Value>, counts: map<Value, nat>)
    requires order == Rooms(seen) && counts.Keys == (set r | r in order)
    requires forall r :: r in counts ==> counts[r] == |InRoom(seen, r)|
    ensures var c := Bump(counts, Room(d));
      forall r :: r in c ==> c[r] == |InRoom(seen + [d], r)|
  {
    var all := seen + [d];
    assert all[..|all| - 1] == seen && all[|all| - 1] == d;
    RoomsFacts(seen);
    InRoomFacts(seen, Room(d));
  }

  /**
   * The counting loop: `room_counts` as an insertion-ordered dict, given by its key order
   * and its key-to-count map; each count is the size of that room's filter. A truthy
   * dict or list room is unhashable: the loop raises TypeError (`ok` false).
   */
  method CountRooms(drafts: seq<Record>) returns (ok: bool, order: seq<Value>, counts: map<Value, nat>)
    ensures ok <==> forall i :: 0 <= i < |drafts| ==> KeyableRoom(Room(drafts[i]))
    ensures ok ==> order == Rooms(drafts)
    ensures ok ==> counts.Keys == set r | r in order
    ensures ok ==> forall r :: r in counts ==> counts[r] == |InRoom(drafts, r)|
  {
    order, counts := [], map[];
    var i := 0;
    while i < |drafts|
      invariant 0 <= i <= |drafts|
      invariant forall j :: 0 <= j < i ==> KeyableRoom(Room(drafts[j]))
      invariant Counted(drafts[..i], order, counts)
    {
      var room := Room(drafts[i]);
      if !KeyableRoom(room) {
        return false, order, counts;
      }
      CountStep(drafts, i, order, counts);
      order, counts := if Truthy(room) && room !in counts then order + [room] else order, Bump(counts, room);
      i := i + 1;
    }
    assert drafts[..i] == drafts;
    ok := true;
  }

  /** The selected room's drafts; an empty selection keeps every draft. */
  function RoomFilter(drafts: seq<Record>, selected: Value): (r: seq<Record>)
    ensures !Truthy(selected) ==> r == drafts
    ensures Truthy(selected) ==> r == InRoom(drafts, selected)
    ensures Truthy(selected) ==> forall d :: d in r <==> d in drafts && Room(d) == selected
  {
    if Truthy(selected) then
      InRoomFacts(drafts, selected);
      InRoom(drafts, selected)
    else drafts
  }

  /** The string value of each room name; non-string names read as "". */
  function Names(rooms: seq<Value>): (r: seq<string>)
    ensures |r| == |rooms|
    ensures forall i :: 0 <= i < |rooms| && rooms[i].Str? ==> r[i] == rooms[i].s
  {
    if rooms == [] then [] else Names(rooms[..|rooms| - 1]) + [if rooms[|rooms| - 1].Str? then rooms[|rooms| - 1].s else ""]
  }

  /** `[""] + sorted(room_counts.keys())`: ordering names that are not all strings raises. */
  function RoomOptions(rooms: seq<Value>): (r: Result<seq<string>>)
    ensures r.Ok? ==> |r.value| == |rooms| + 1 && r.value[0] == ""
    ensures r.Ok? ==> forall i :: 0 <= i < |rooms| ==> rooms[i].Str? && rooms[i].s in r.value[1..]
  {
    if forall i :: 0 <= i < |rooms| ==> rooms[i].Str? then
      var names := Names(rooms);
      SortStringsCorrect(names);
      assert |multiset(SortStrings(names))| == |multiset(names)|;
      assert forall i :: 0 <= i < |rooms| ==> names[i] in multiset(SortStrings(names)) by {
        forall i | 0 <= i < |rooms| ensures names[i] in multiset(SortStrings(names)) {
          assert names[i] in multiset(names);
        }
      }
      var opts := [""] + SortStrings(names);
      assert opts[1..] == SortStrings(names);
      Ok(opts)
    else Raised("TypeError")
  }

  /** The options are "" (every room) and then each room name once, in string order. */
  lemma RoomOptionsCorrect(drafts: seq<Record>)
    requires forall i :: 0 <= i < |drafts| && Truthy(Room(drafts[i])) ==> Room(drafts[i]).Str?
    ensures RoomOptions(Rooms(drafts)).Ok?
    ensures RoomOptions(Rooms(drafts)).value[0] == ""
    ensures SortedStrings(RoomOptions(Rooms(drafts)).value[1..])
    ensures multiset(RoomOptions(Rooms(drafts)).value[1..]) == multiset(Names(Rooms(drafts)))
  {
    RoomsFacts(drafts);
    var o := Rooms(drafts);
    forall i | 0 <= i < |o| ensures o[i].Str? {
      assert o[i] in o;
    }
    SortStringsCorrect(Names(o));
    assert RoomOptions(o).value[1..] == SortStrings(Names(o));
  }

  // ---------------------------------------------------------------------------
  // Per-kind counts
  // ---------------------------------------------------------------------------

  /** `[d for d in drafts if d.get('collection_target') == kind]`. */
  function OfKind(drafts: seq<Record>, kind: string): (r: seq<Record>)
    ensures forall d :: d in r <==> d in drafts && Get(d, "collection_target") == Str(kind)
  {
    if drafts == [] then []
    else OfKind(drafts[..|drafts| - 1], kind)
         + (if Get(drafts[|drafts| - 1], "collection_target") == Str(kind) then [drafts[|drafts| - 1]] else [])
  }

  /** The three kinds are disjoint, so their counts add up to at most the number of drafts. */
  lemma {:induction false} KindCountsBound(drafts: seq<Record>)
    ensures |OfKind(drafts, "drzwi")| + |OfKind(drafts, "drzwi_wejsciowe")| + |OfKind(drafts, "podlogi")| <= |drafts|
  {
    if drafts != [] {
      KindCountsBound(drafts[..|drafts| - 1]);
    }
  }

  // ---------------------------------------------------------------------------
  // Opening side of a door draft
  // ---------------------------------------------------------------------------

  const NotChosen := "Nie wybrano"

  /** The radio's options, in display order. */
  const SideChoices := [NotChosen, "LEWE", "PRAWE", "LEWE odwrotna przylga", "PRAWE odwrotna przylga"]

  /** The stored flags, in the order the radio tests them. */
  const SideFlags := ["lewe_przyl", "prawe_przyl", "lewe_odwr", "prawe_odwr"]

  /** `draft.get('strona_otwierania', {}) or {}`; `.get` on a truthy non-dict raises. */
  function SavedSides(draft: Record): (r: Result<Record>)
    ensures !Truthy(GetOr(draft, "strona_otwierania", Dict(map[]))) ==> r == Ok(map[])
    ensures r.Raised? <==> Truthy(GetOr(draft, "strona_otwierania", Dict(map[]))) && !GetOr(draft, "strona_otwierania", Dict(map[])).Dict?
    ensures Truthy(GetOr(draft, "strona_otwierania", Dict(map[]))) && GetOr(draft, "strona_otwierania", Dict(map[])).Dict? ==>
              r == Ok(GetOr(draft, "strona_otwierania", Dict(map[])).m)
  {
    var v := GetOr(draft, "strona_otwierania", Dict(map[]));
    if !Truthy(v) then Ok(map[]) else if v.Dict? then Ok(v.m) else Raised("AttributeError")
  }

  /** The radio's initial choice: the first flag set, in the order of `SideFlags`. */
  function CurrentChoice(so: Record): (r: string)
    ensures r in SideChoices
  {
    if Has(so, "lewe_przyl") then "LEWE"
    else if Has(so, "prawe_przyl") then "PRAWE"
    else if Has(so, "lewe_odwr") then "LEWE odwrotna przylga"
    else if Has(so, "prawe_odwr") then "PRAWE odwrotna przylga"
    else NotChosen
  }

  /** At most one of the four flags is set. */
  predicate AtMostOneSide(flags: Record) {
    forall i, j :: 0 <= i < j < |SideFlags| ==> !(Has(flags, SideFlags[i]) && Has(flags, SideFlags[j]))
  }

  /** The saved dict: one boolean per flag, in `SideFlags` order. */
  function FlagRecord(lp: bool, pp: bool, lo: bool, po: bool): (r: Record)
    ensures r.Keys == set k | k in SideFlags
    ensures Has(r, "lewe_przyl") == lp && Has(r, "prawe_przyl") == pp
    ensures Has(r, "lewe_odwr") == lo && Has(r, "prawe_odwr") == po
    ensures (lp ==> !pp && !lo && !po) && (pp ==> !lo && !po) && (lo ==> !po) ==> AtMostOneSide(r)
  {
    var r := map["lewe_przyl" := Bool(lp), "prawe_przyl" := Bool(pp), "lewe_odwr" := Bool(lo), "prawe_odwr" := Bool(po)];
    assert SideFlags[0] == "lewe_przyl" && SideFlags[1] == "prawe_przyl";
    assert SideFlags[2] == "lewe_odwr" && SideFlags[3] == "prawe_odwr";
    r
  }

  /** The `strona_otwierania` dict the editor saves, as written: it tests labels the radio never offers. */
  function SidesAsWritten(choice: string): (r: Record)
    ensures r.Keys == set k | k in SideFlags
    ensures AtMostOneSide(r)
  {
    FlagRecord(choice == "LEWE przylgowe", choice == "PRAWE przylgowe",
               choice == "LEWE odwrotna przylga", choice == "PRAWE odwrotna przylga")
  }

  /** The saved dict with the labels the radio offers. */
  function Sides(choice: string): (r: Record)
    ensures r.Keys == set k | k in SideFlags
    ensures AtMostOneSide(r)
  {
    FlagRecord(choice == "LEWE", choice == "PRAWE", choice == "LEWE odwrotna przylga", choice == "PRAWE odwrotna przylga")
  }

  /**
   * As written, opening and saving a draft clears a rebated ("przylgowe") side: the
   * radio shows "LEWE"/"PRAWE", the save compares with "LEWE przylgowe"/"PRAWE przylgowe",
   * so no flag is set; a reverse-rebate side or no side survives the round trip.
   */
  lemma SidesAsWrittenRoundTrip(so: Record)
    ensures Has(so, "lewe_przyl") || Has(so, "prawe_przyl") ==>
              forall k :: k in SidesAsWritten(CurrentChoice(so)) ==> !Has(SidesAsWritten(CurrentChoice(so)), k)
    ensures !Has(so, "lewe_przyl") && !Has(so, "prawe_przyl") ==>
              CurrentChoice(SidesAsWritten(CurrentChoice(so))) == CurrentChoice(so)
  {
    var c := CurrentChoice(so);
    var r := SidesAsWritten(c);
    if Has(so, "lewe_przyl") || Has(so, "prawe_przyl") {
      assert c == "LEWE" || c == "PRAWE";
      assert r == map["lewe_przyl" := Bool(false), "prawe_przyl" := Bool(false),
                      "lewe_odwr" := Bool(false), "prawe_odwr" := Bool(false)];
    } else if c == "LEWE odwrotna przylga" {
      assert !Has(r, "lewe_przyl") && !Has(r, "prawe_przyl") && Has(r, "lewe_odwr");
    } else if c == "PRAWE odwrotna przylga" {
      assert !Has(r, "lewe_przyl") && !Has(r, "prawe_przyl") && !Has(r, "lewe_odwr") && Has(r, "prawe_odwr");
    } else {
      assert !Has(r, "lewe_przyl") && !Has(r, "prawe_przyl") && !Has(r, "lewe_odwr") && !Has(r, "prawe_odwr");
    }
  }

  /** A draft saved with the left rebated side reopens with no side chosen. */
  lemma LeftRebateLost()
    ensures CurrentChoice(map["lewe_przyl" := Bool(true)]) == "LEWE"
    ensures CurrentChoice(SidesAsWritten(CurrentChoice(map["lewe_przyl" := Bool(true)]))) == NotChosen
  {
  }

  /** With the offered labels, every radio choice round-trips through the saved flags. */
  lemma SidesRoundTrip(choice: string)
    requires choice in SideChoices
    ensures CurrentChoice(Sides(choice)) == choice
  {
    var r := Sides(choice);
    if choice == NotChosen {
      assert !Has(r, "lewe_przyl") && !Has(r, "prawe_przyl") && !Has(r, "lewe_odwr") && !Has(r, "prawe_odwr");
    } else if choice == "LEWE" {
      assert Has(r, "lewe_przyl");
    } else if choice == "PRAWE" {
      assert !Has(r, "lewe_przyl") && Has(r, "prawe_przyl");
    } else if choice == "LEWE odwrotna przylga" {
      assert !Has(r, "lewe_przyl") && !Has(r, "prawe_przyl") && Has(r, "lewe_odwr");
    } else {
      assert !Has(r, "lewe_przyl") && !Has(r, "prawe_przyl") && !Has(r, "lewe_odwr") && Has(r, "prawe_odwr");
    }
  }

  /** With the offered labels, saving a draft keeps exactly the side the radio showed: the first flag set. */
  lemma SidesKeepFirstFlag(so: Record)
    ensures forall i :: 0 <= i < |SideFlags| ==>
              (Has(Sides(CurrentChoice(so)), SideFlags[i]) <==>
                 Has(so, SideFlags[i]) && forall j :: 0 <= j < i ==> !Has(so, SideFlags[j]))
  {
    var r := Sides(CurrentChoice(so));
    assert SideFlags[0] == "lewe_przyl" && SideFlags[1] == "prawe_przyl";
    assert SideFlags[2] == "lewe_odwr" && SideFlags[3] == "prawe_odwr";
    if Has(so, "lewe_przyl") {
      assert Has(r, "lewe_przyl") && !Has(r, "prawe_przyl") && !Has(r, "lewe_odwr") && !Has(r, "prawe_odwr");
    } else if Has(so, "prawe_przyl") {
      assert !Has(r, "lewe_przyl") && Has(r, "prawe_przyl") && !Has(r, "lewe_odwr") && !Has(r, "prawe_odwr");
    } else if Has(so, "lewe_odwr") {
      assert !Has(r, "lewe_przyl") && !Has(r, "prawe_przyl") && Has(r, "lewe_odwr") && !Has(r, "prawe_odwr");
    } else if Has(so, "prawe_odwr") {
      assert !Has(r, "lewe_przyl") && !Has(r, "prawe_przyl") && !Has(r, "lewe_odwr") && Has(r, "prawe_odwr");
    } else {
      assert !Has(r, "lewe_przyl") && !Has(r, "prawe_przyl") && !Has(r, "lewe_odwr") && !Has(r, "prawe_odwr");
    }
  }

  // ---------------------------------------------------------------------------
  // Draft images
  // ---------------------------------------------------------------------------

  /**
   * The list written back after the image editor returned `remaining`, or None when
   * nothing is written: only when the draft has images and the count changed.
   */
  function ImagesToWrite(draft: Record, remaining: seq<Value>): (r: Option<seq<Value>>)
    ensures r.Some? ==> r.value == remaining
  {
    var existing := GetOr(draft, "zdjecia", List([]));
    if existing.List? && existing.items != [] && |remaining| != |existing.items| then Some(remaining) else None
  }

  /**
   * Keeping every image writes nothing, removing some always writes the rest, and an
   * edit that keeps the count (an image swapped for another) is not written.
   */
  lemma ImageGuard(draft: Record, remaining: seq<Value>)
    requires GetOr(draft, "zdjecia", List([])).List?
    ensures remaining == GetOr(draft, "zdjecia", List([])).items ==> ImagesToWrite(draft, remaining) == None
    ensures |remaining| < |GetOr(draft, "zdjecia", List([])).items| ==> ImagesToWrite(draft, remaining) == Some(remaining)
    ensures |remaining| == |GetOr(draft, "zdjecia", List([])).items| ==> ImagesToWrite(draft, remaining) == None
  {
  }
}
