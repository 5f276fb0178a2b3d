# MonterApp core in Dafny

MonterApp is a Streamlit application for a door and floor fitting business, backed by Firestore. It has a two-stage workflow:

- **Measurement.** An installer ("monter") records the measurements of a door or a floor. The record is stored with an access code.
- **Completion.** A seller ("sprzedawca") finds the record by that code, adds the product data and finalises the order. A PDF of the order can then be downloaded.
- **Virtual client folders.** A page groups all records into folders named `client_DD_MM_YYYY`.
- **Draft store.** Another page finalises installers' drafts in bulk, filters them by room and edits them.

This project models the decision logic under those pages, which are:

- the record workflow over the document store (`firebase_config.py`);
- the folder derivation (`pages/Foldery.py`);
- draft finalisation and the draft filters (`pages/Przechowalnia.py`);
- the submission guards and payloads of the forms (`pages/Formularz.py`);
- the field selection of the PDF generator (`pdf_generator.py`).

The widgets and the PDF layout are not modelled.

Files and modules:

| file | module | what it holds |
|---|---|---|
| `values.dfy` | `Values` | the record value type (`Str`, `Bool`, `Int`, `Time`, `Day`, `Dict`, `List`, `Null`), Python truthiness, `dict.get`, `str.lower`, substring tests, `str()` of values, digit strings |
| `dates.dfy` | `Dates` | calendar validity, the ISO subset read by `datetime.fromisoformat`, day numbers |
| `sorting.dfy` | `Sorting` | Python's stable `sort(reverse=True)` on a datetime, string or number key; `sorted` on strings |
| `store.dfy` | `DocStore` | the in-memory document store (class `Store`: collection → sequence of `(id, fields)`) and the mutable form dict (class `FormData`) |
| `firebase_config.dfy` | `FirebaseConfig` | access codes, the saves, seller completion, admin overrides, code lookup, the seller worklist, share links |
| `foldery.dfy` | `Foldery` | name normalisation, `_as_dt`, the folder key, the editors' status picker |
| `foldery_view.dfy` | `FolderView` | the folder page's loops: collecting, filtering, grouping, sorting groups |
| `przechowalnia.dfy` | `Przechowalnia` | batch finalisation, room counts and filters, the opening-side radio, the image guard |
| `formularz.dfy` | `Formularz` | required-field checks, measurement payloads, QR payload, worklist selection, seller overlay |
| `pdf_generator.dfy` | `PdfGenerator` | `safe_text`, info rows, opening-side choice and text, image searches, door-type mapping, skirting sum, dispatch and file name |

Modelling conventions:

- **Store.** The document store keeps each collection as a sequence in its natural query order.
- **Failures.** A Firestore call that raises is a `fault: bool` parameter.
- **Values the code obtains from outside.** These are parameters:
  - clock readings: `now`, `created`, `today`;
  - the random draws of `secrets.choice`: `draws`;
  - the id Firestore assigns: `newId`;
  - file existence: `isFile`;
  - the NFKD-plus-ASCII fold: `fold`.
- **Exceptions.** An exception the code raises is a `Raised(name)` result.

## Model

| member | source | states |
|---|---|---|
| FirebaseConfig.GenerateAccessCode | firebase_config.py:271-273 | the code is exactly 8 characters, each in A–Z or 0–9, the i-th being the alphabet entry of the i-th draw |
| FirebaseConfig.EveryAccessCodeIsReachable | firebase_config.py:271-273 | every 8-character A–Z/0–9 string is produced by some choice of draws |
| FirebaseConfig.AlphabetLayout | firebase_config.py:273 | `ascii_uppercase + digits` has 36 characters: A–Z at 0–25, 0–9 at 26–35 |
| FirebaseConfig.PomiaryStamped | firebase_config.py:281-287 | the stamped dict has the caller's keys plus the seven metadata keys. It holds both timestamps, stage "pomiary", `wypelnil_monter` True, the installer id, the code and status "pomiary_wykonane". Every other caller key is unchanged |
| FirebaseConfig.SavePomiaryData | firebase_config.py:275-298 | the caller's dict is stamped in place. On success exactly one document (new id, stamped dict) is added to the collection at its place in id order, and the result is (that id, the code stored in it). On a store failure the result is (None, None) and the store is unchanged |
| FirebaseConfig.ActiveStamped | firebase_config.py:174-175 | the dict gains `data_utworzenia` = now and `status` = "aktywny"; every other key is unchanged |
| FirebaseConfig.SaveActive | firebase_config.py:172-187 | the shared body of the two plain saves: stamp in place, add one document at its place in id order and return its id, or None with nothing stored |
| FirebaseConfig.SaveDrzwiData | firebase_config.py:168-187 | the same, into "drzwi" |
| FirebaseConfig.SavePodlogiData | firebase_config.py:189-208 | the same, into "podlogi" |
| FirebaseConfig.SellerUpdate | firebase_config.py:306-313 | the update holds every seller key. The five control fields override same-named seller keys. Every other seller value is kept |
| FirebaseConfig.CompletionIsIdempotent | firebase_config.py:300-322 | keys outside the update keep their stored value. Applying the completion again gives the same document except for `data_sprzedaz` |
| FirebaseConfig.CompleteFormBySeller | firebase_config.py:300-322 | True exactly when the store did not fail and the document exists. That document is then patched with the update and nothing else changes. There is no check of the old stage or status |
| FirebaseConfig.UpdateRecordStatus | firebase_config.py:242-254 | True exactly when the document exists and the store did not fail. Only `status` and `data_modyfikacji` are written, with no check of the old status |
| FirebaseConfig.DeleteRecord | firebase_config.py:256-265 | True unless the store failed. The document is removed whether or not it existed |
| FirebaseConfig.WithId | firebase_config.py:333-334 | `to_dict()` plus `id` = the document id; other fields unchanged |
| FirebaseConfig.FirstWithCode | firebase_config.py:329 | the index returned is the first document, in the store's id order, whose `kod_dostepu` equals the code (so the one with the smallest id), or None when no document has it |
| FirebaseConfig.GetFormByAccessCode | firebase_config.py:324-341 | None on a store failure. Otherwise Some exactly when some document carries the code, and then it is such a document with its id added |
| FirebaseConfig.PendingAppend | firebase_config.py:352-358 | the worklist filter distributes over concatenation (it is a per-document filter) |
| FirebaseConfig.PendingMembers | firebase_config.py:350-358 | a form is listed exactly when some document has `wypelnil_monter` True and stage "pomiary"; it is that document with its id |
| FirebaseConfig.WorklistAsWritten | firebase_config.py:343-366 | the worklist is empty exactly when nothing is pending or the sort raises TypeError (the `except` returns `[]`). Otherwise it holds the pending forms, rearranged |
| FirebaseConfig.WorklistAsWrittenCorrect | firebase_config.py:343-366 | as written: `[]` when the sort raises. Otherwise a permutation of the pending forms, newest first, with equal keys in the store's id order. Timestamps, strings and numbers (a bool as 0 or 1) order among their own kind, and a date orders as its midnight |
| FirebaseConfig.AsWrittenRaisesOnMixedDates | firebase_config.py:361 | when every date is a timestamp or missing, the as-written sort raises exactly when there are two or more forms, one without `data_utworzenia` and one with it. With the aware default it never raises |
| FirebaseConfig.WorklistCorrect | firebase_config.py:343-362 | corrected worklist, where a missing date defaults to an aware `datetime.min`. When every date is a timestamp or missing, it is a permutation of the pending forms, sorted newest first, with equal dates in the store's id order. No form listed after an undated one has a date above `datetime.min` |
| FirebaseConfig.WorklistMixedDatesCounterexample | firebase_config.py:361 | as written, a dated form plus a form without `data_utworzenia` empty the worklist; the corrected one lists the dated one first |
| FirebaseConfig.GetFormsForCompletion | firebase_config.py:343-366 | the loop builds the filtered list, then sorts it. The result is the as-written worklist (`[]` when the sort raises), or `[]` on a store failure |
| FirebaseConfig.SplitAt | firebase_config.py:373 | a split at the first occurrence of a character, or None when it does not occur |
| FirebaseConfig.SplitAtFirst | firebase_config.py:373 | splitting `a + [c] + b` at `c` gives back `a` and `b` when `c` is not in `a` |
| FirebaseConfig.GenerateShareLink | firebase_config.py:368-373 | the link starts with the fixed application URL and ends with `?kod=` followed by the code |
| FirebaseConfig.ShareLinkRoundTrip | firebase_config.py:368-373 | the share link parses back to (collection, id, code) when the collection has no '/' and the id no '?' |
| DocStore.Patched | firebase_config.py:315 | a Firestore `update`: the named document gets the patch merged in, every other document is unchanged, ids and order are kept |
| DocStore.Removed | firebase_config.py:261 | a Firestore `delete`: exactly the documents with that id are gone |
| DocStore.RemovedKeepsUnique | firebase_config.py:261 | deleting keeps document ids unique |
| DocStore.RemovedLength | firebase_config.py:261 | deleting removes one document when the id exists and none otherwise |
| DocStore.Store.Add | firebase_config.py:290 | `collection.add`: one document under a fresh id, inserted at its place in ascending id order; ids stay unique and sorted |
| DocStore.InsertByIdSorted | firebase_config.py:290 | inserting a document with a fresh id keeps a collection in ascending id order, the order in which queries without `order_by` (lines 329, 350) return documents |
| DocStore.InsertByIdPlaces | firebase_config.py:290 | the new document lands after every document with a smaller id and before every one with a larger id |
| DocStore.Store.Update | firebase_config.py:315 | `document.update`: found exactly when the id exists, then the document is patched; otherwise nothing changes (Firestore raises NotFound) |
| DocStore.Store.Delete | firebase_config.py:261 | `document.delete`: the document is removed when present; otherwise nothing changes |
| Foldery.NormalizeName | pages/Foldery.py:27-33 | "nieznany_klient" for empty input or when no letter or digit survives the fold. Otherwise the result uses only [a-z0-9_], has no leading, trailing or doubled '_', and its letters and digits are the lower-cased ones of the folded text |
| Foldery.Slug | pages/Foldery.py:32 | `re.sub('[^a-zA-Z0-9]+','_').strip('_').lower()` yields "" exactly when no letter or digit is present. Otherwise it yields a slug with the same letters and digits, lower-cased |
| Foldery.Collapse | pages/Foldery.py:32 | runs of other characters become one '_'; letters and digits are kept in order |
| Foldery.CollapseSeparator | pages/Foldery.py:32 | a word of letters and digits, then a non-empty run of other characters, then the rest: the word is kept, the run becomes exactly one '_', and the rest is collapsed on its own |
| Foldery.PolishFoldIsAsciiFold | pages/Foldery.py:30-31 | the concrete fold (Polish letters to their base letter, ASCII kept, others dropped) is an ASCII fold |
| Foldery.NormalizeNameIdempotent | pages/Foldery.py:27-33 | normalising a normalised name changes nothing |
| Foldery.SlugIsFixpoint | pages/Foldery.py:27-33 | every slug is its own normal form |
| Foldery.StrokeLetterDropped | pages/Foldery.py:30-31 | with a fold that drops 'Ł' (as NFKD does), "Łukasz" becomes "ukasz" while "Lukasz" becomes "lukasz" |
| Foldery.StrokeLetterKept | pages/Foldery.py:30-31 | with Ł/ł mapped to L/l first, the fold is still an ASCII fold and "Łukasz" lands in the same folder as "Lukasz" |
| Foldery.AsDt | pages/Foldery.py:37-47 | a datetime is returned unchanged; a date becomes its midnight; an ISO string is parsed; an unparsable string or any other value gives `datetime.min` |
| Foldery.AsDtReadsShownDates | pages/Foldery.py:42-44 | `_as_dt` reads back the ISO text of any valid datetime |
| Dates.IsoRoundTrip | pages/Foldery.py:44 | the `fromisoformat` subset parses `str(datetime)` back to the same datetime |
| Dates.ParseIso | pages/Foldery.py:44 | a parsed datetime is a valid calendar date and time |
| Foldery.DateSuffix | pages/Foldery.py:54-59 | the suffix is 11 characters with '_' at positions 0, 3 and 6; `datetime.min` gives "_00_00_0000" |
| Foldery.DateSuffixDigits | pages/Foldery.py:54-59 | for a real date other than `datetime.min` the three digit fields read back as the day, the month and the year |
| Foldery.DateSuffixInjective | pages/Foldery.py:54-59 | two valid datetimes give the same suffix exactly when they fall on the same folder day |
| Foldery.FolderName | pages/Foldery.py:50-60 | raises exactly when `imie_nazwisko or nazwisko or ''` is not a string. Otherwise the folder key is that name normalised, followed by the date suffix of the returned datetime, and the datetime is `_as_dt(data_pomiary or data_utworzenia)` |
| Foldery.FolderKeyInjective | pages/Foldery.py:50-60 | two records share a folder key exactly when their names normalise alike and their dates fall on the same day |
| Foldery.IndexOf | pages/Foldery.py:304 | `list.index`: the first position of the value, or ValueError exactly when it is absent |
| Foldery.StatusIndexCases | pages/Foldery.py:303-304 | the status picker gives index 0 without a status, and the position of a listed status. Any other stored status raises ValueError |
| Foldery.StatusPickerRejectsMeasured | pages/Foldery.py:303-304 | a record saved by `save_pomiary_data` (status "pomiary_wykonane") makes the editor raise |
| Foldery.StatusIndexFixedCorrect | pages/Foldery.py:303-304 | the corrected picker accepts "pomiary_wykonane" and "aktywny". It agrees with the original wherever that succeeds, and always selects the stored status |
| FolderView.TaggedAt | pages/Foldery.py:79-90 | each copy is the original record with `__type` set, one per record, in order |
| FolderView.AppendTagged | pages/Foldery.py:79-82 | the append loop extends the list by the tagged copies |
| FolderView.CollectRecords | pages/Foldery.py:77-90 | all records are the tagged doors, then floors, then entrance doors |
| FolderView.InDate | pages/Foldery.py:123-137 | `_in_date`: "Wszystko" and unknown modes pass everything. "Dziś" passes today only; the 7- and 30-day modes pass dates on or after that many days before today; a range passes dates between its bounds, both included, or everything when a bound is missing |
| FolderView.InDateModes | pages/Foldery.py:123-137 | "Dziś" implies "last 7 days", which implies "last 30 days". The range is inclusive at both ends, and a missing bound lets every date pass |
| FolderView.Admit | pages/Foldery.py:140-153 | a record raises exactly when its type is selected and its name is not a string. It is kept exactly when the type is selected, the date passes and both non-empty text filters match case-insensitively. A kept record carries its folder key and datetime |
| FolderView.FilterWithRaises | pages/Foldery.py:140-153 | the loop raises exactly when some step raises |
| FolderView.FilterWithMembers | pages/Foldery.py:140-153 | the loop keeps no more than its input, and keeps exactly the admitted entries |
| FolderView.RaisedPersists | pages/Foldery.py:140-153 | once a step has raised, the rest of the loop does not matter |
| FolderView.FilteredMembers | pages/Foldery.py:139-153 | the page raises exactly when a selected record has a non-string name. Otherwise the filtered list holds exactly the records that pass every filter |
| FolderView.FilterRecords | pages/Foldery.py:139-153 | the filter loop computes the filtered list |
| FolderView.FolderOrderFacts | pages/Foldery.py:156-164 | the group keys are exactly the folder keys present, each once, in first-seen order |
| FolderView.ItemsOfFacts | pages/Foldery.py:156-164 | a group holds exactly the entries with its key, in filtered order |
| FolderView.CountItemsAppend | pages/Foldery.py:156-172 | item counts add over disjoint key lists |
| FolderView.CountItemsStep | pages/Foldery.py:156-172 | one more entry raises the count of its own group by one |
| FolderView.FoldersPartition | pages/Foldery.py:156-172 | the group sizes sum to the number of filtered records (each record is in exactly one group) |
| FolderView.GroupByFolder | pages/Foldery.py:156-164 | the grouping loop builds one group per key, holding exactly that key's entries in order. The group's date is its first member's datetime |
| FolderView.SortGroups | pages/Foldery.py:184 | `sorted(groups.items(), key=dt, reverse=True)`. A folder's datetime is aware when its first record's date is a stored timestamp; mixing aware and naive raises TypeError |
| FolderView.SortGroupsCorrect | pages/Foldery.py:184 | the folder list raises TypeError exactly when a folder with an aware datetime and one with a naive datetime are both present (there is no `try` around it). Otherwise the groups are listed by date, newest first, as a permutation of the groups, and groups with equal dates keep dictionary order |
| Sorting.SortDescCorrect | firebase_config.py:361 | the stable descending sort is sorted, a permutation, and keeps the input order among equal keys |
| Sorting.SortDescStable | firebase_config.py:361 | `sorted(..., reverse=True)` is stable: the entries sharing any one datetime keep their input order |
| Sorting.SortStringsCorrect | pages/Przechowalnia.py:144 | `sorted` on strings is sorted and a permutation |
| Przechowalnia.FinalizedCorrect | pages/Przechowalnia.py:42-85 | every draft counts once: successes + errors = number of drafts. `finalize_draft` is called once per draft with an id, in order. There is one result per call. A result is a success exactly when the returned id is truthy. An error message is kept exactly when the call raised. The success count equals the successful results |
| Przechowalnia.Finalized | pages/Przechowalnia.py:42-85 | the loop of `finalize_all_drafts`. A draft without an id counts as an error without a call. Otherwise `finalize_draft` is called: a truthy returned id is a success, a falsy one an error line without a message, and a raise an error line with its message |
| Przechowalnia.FinalizeAllDrafts | pages/Przechowalnia.py:27-85 | an empty list makes no call. Otherwise the counting loop computes the summary above |
| Przechowalnia.RoomsFacts | pages/Przechowalnia.py:138-142 | the counted rooms are exactly the truthy `pomieszczenie` values present, each once |
| Przechowalnia.InRoomFacts | pages/Przechowalnia.py:158 | the drafts of a room are exactly those whose `pomieszczenie` equals it |
| Przechowalnia.CountInRoomsStep | pages/Przechowalnia.py:138-142 | one more draft raises the count of its own room by one |
| Przechowalnia.RoomCountsSum | pages/Przechowalnia.py:138-142 | the room counts sum to the number of drafts with a non-empty room |
| Przechowalnia.CountRooms | pages/Przechowalnia.py:138-142 | the counting loop raises TypeError (unhashable key) exactly when some draft has a truthy dict or list room. Otherwise the keys are the non-empty rooms in first-seen order, and each count is the number of drafts in that room |
| Przechowalnia.RoomFilter | pages/Przechowalnia.py:156-158 | an empty selection keeps all drafts. Otherwise the result is that room's drafts: exactly those whose `pomieszczenie` equals the selection, in order |
| Przechowalnia.RoomOptionsCorrect | pages/Przechowalnia.py:144 | when every non-empty room is a string, the options are "" followed by the room names, sorted, each once |
| Przechowalnia.RoomOptions | pages/Przechowalnia.py:144 | one option per room after the leading "", and every room name is among them. Ordering a room that is not a string raises TypeError |
| Przechowalnia.OfKind | pages/Przechowalnia.py:180-182 | a per-kind list holds exactly the drafts with that `collection_target` |
| Przechowalnia.KindCountsBound | pages/Przechowalnia.py:180-182 | the three per-kind counts sum to at most the number of drafts |
| Przechowalnia.SavedSides | pages/Przechowalnia.py:305-308 | `draft.get('strona_otwierania', {}) or {}` is empty for a falsy value and the stored dict otherwise; a truthy non-dict raises on the `.get` that follows |
| Przechowalnia.CurrentChoice | pages/Przechowalnia.py:307-315 | the radio's initial choice is always one of its options, so `.index` cannot fail |
| Przechowalnia.FlagRecord | pages/Przechowalnia.py:370-375 | the saved dict has exactly the four flag keys, each flag reads back as the boolean stored, and mutually exclusive booleans give at most one True flag |
| Przechowalnia.SidesAsWritten | pages/Przechowalnia.py:370-375 | the saved flags have exactly the four keys, at most one of them True |
| Przechowalnia.SidesAsWrittenRoundTrip | pages/Przechowalnia.py:307-375 | as written, a draft with a rebated side set is saved with no flag set. A reverse-rebate side, or no side, survives the round trip |
| Przechowalnia.LeftRebateLost | pages/Przechowalnia.py:307-375 | a draft saved with the left rebated side reopens with "Nie wybrano" |
| Przechowalnia.Sides | pages/Przechowalnia.py:370-375 | corrected save: four keys, at most one True |
| Przechowalnia.SidesRoundTrip | pages/Przechowalnia.py:317-375 | corrected: saving any radio choice and reopening shows the same choice |
| Przechowalnia.SidesKeepFirstFlag | pages/Przechowalnia.py:307-375 | corrected: reopening and saving keeps exactly the first flag set, in the radio's order |
| Przechowalnia.ImagesToWrite | pages/Przechowalnia.py:531-537 | when images are written, they are the remaining list |
| Przechowalnia.ImageGuard | pages/Przechowalnia.py:533-537 | images are rewritten only when the remaining list's length differs. An untouched or same-length list writes nothing, and a shorter one is written |
| Formularz.MissingFields | pages/Formularz.py:150-151 | a field is listed exactly when it is required and its value is missing or falsy, in required order |
| Formularz.MissingFieldsAppend | pages/Formularz.py:151 | the check distributes over the required list |
| Formularz.MeasurementPayload | pages/Formularz.py:135-146 | the payload has every seller-owned field set to "" (door: 11, floor: 6) and every measured field kept |
| Formularz.PayloadChecks | pages/Formularz.py:135-157 | the blanks never affect the measurement check (it depends only on the measured fields), and they leave every required seller field missing |
| Formularz.MissingFieldsAgree | pages/Formularz.py:151 | two dicts with the same truthiness on the required keys miss the same fields |
| Formularz.QrRoundTrip | pages/Formularz.py:172 | "KOD:{code}\|ID:{id}\|TYP:{kind}" parses back to (code, id, kind) for any valid code and an id without '\|' |
| Formularz.SubmitMeasurement | pages/Formularz.py:148-172 | nothing is stored without an installer or with a required field missing (the missing list is reported). Otherwise `save_pomiary_data` stores the stamped payload, and the outcome carries the id, code, QR payload and share link |
| Formularz.CodeOptions | pages/Formularz.py:270 | the options are "" followed by each form's code in order; KeyError exactly when some form lacks `kod_dostepu` |
| Formularz.FirstForm | pages/Formularz.py:275 | the first form, from a position, whose code equals the selection, or None |
| Formularz.SelectForm | pages/Formularz.py:274-275 | a selected form carries the chosen code. Nothing is selected for the blank option, or when no form has the code |
| Formularz.SelectOptionRoundTrip | pages/Formularz.py:268-275 | choosing the k-th option selects the first form with that code. That form lies at or before the form that supplied the option. The blank option selects nothing |
| Formularz.Overlay | pages/Formularz.py:370-371 | the PDF data have the form's keys and the seller's. Seller values win, and other form values are kept |
| Formularz.CompleteData | pages/Formularz.py:370-371 | the overlay is a fresh dict; the form's own dict is not modified |
| Formularz.OverlayMatchesStored | pages/Formularz.py:360-371 | the PDF data agree with the completed stored document on every field except the control fields and the id |
| Formularz.SubmitSellerData | pages/Formularz.py:353-371 | `complete_form_by_seller` is called only with a seller and no missing required seller field. The overlay is produced only when it succeeds, and otherwise nothing is stored |
| PdfGenerator.SafeText | pdf_generator.py:317-335 | falsy input gives ""; anything else gives `str(text)` |
| PdfGenerator.SafeTextEmpty | pdf_generator.py:317-335 | the text is empty exactly when the input is falsy |
| PdfGenerator.InfoRows | pdf_generator.py:364-367 | the append loop builds the rows of the info table |
| PdfGenerator.RowsFacts | pdf_generator.py:364-367 | the table has at most one row per entry, and a row exists exactly for an entry with a truthy value, labelled "key:" |
| PdfGenerator.RowsAppend | pdf_generator.py:390-393 | rows keep insertion order (the filter distributes over concatenation) |
| PdfGenerator.OpeningConfig | pdf_generator.py:609 | `data.get('strona_otwierania', {})` is usable exactly when it is a dict; anything else raises on `.get` |
| PdfGenerator.OpeningText | pdf_generator.py:609-618 | the "Strona otwierania" cell is never empty; with exactly one side set it is that side's label |
| PdfGenerator.FirstSide | pdf_generator.py:475-476 | the position of the first flag set in priority order, or None when none is set |
| PdfGenerator.SelectedSide | pdf_generator.py:430-433 | None exactly when no flag is set; otherwise the first true key of lewe_przyl, prawe_przyl, lewe_odwr, prawe_odwr |
| PdfGenerator.OpeningTextMatchesImage | pdf_generator.py:609-618 | the text is "Nie wybrano" exactly when no side is selected; otherwise its first label is that of the side whose picture is chosen |
| PdfGenerator.OpeningTextOfOneSide | pdf_generator.py:609-618 | with one side set, the text is that side's label alone |
| PdfGenerator.FirstExistingUnique | pdf_generator.py:487-496 | "the first existing path" determines the result uniquely |
| PdfGenerator.FindFirstExisting | pdf_generator.py:487-496 | the nested loop returns the first existing path, scanning directories in order and names in order within each; None when no path exists |
| PdfGenerator.FindDoorImage | pdf_generator.py:473-496 | (None, None) when no side is set; otherwise the chosen side and the first existing picture for it |
| PdfGenerator.FirstMapping | pdf_generator.py:514-517 | the first mapping, in dict order, whose key and the lowered type contain one another |
| PdfGenerator.TypeCandidates | pdf_generator.py:512-521 | the first matching mapping's files, or only `lower(t).replace(' ','_') + '.png'` when no mapping matches |
| PdfGenerator.BezprzylgoweQuirk | pdf_generator.py:504-517 | any type whose lowered text contains "bezprzylgowe" gets the "przylgowe" pictures |
| PdfGenerator.FindDoorTypeImage | pdf_generator.py:498-529 | None for an empty type; otherwise the first existing candidate file |
| PdfGenerator.DoorTypeSlotAsWritten | pdf_generator.py:623-639 | as written the door-type slot is never filled. It raises only for a truthy non-string under the odd key |
| PdfGenerator.DoorTypeSlot | pdf_generator.py:623-639 | corrected: the type comes from `typ_drzwi`, and the slot holds the first existing picture for it |
| PdfGenerator.PieceSum | pdf_generator.py:755-756 | the sum succeeds exactly when every count (missing counted as 0) is a number |
| PdfGenerator.SkirtingSum | pdf_generator.py:755-756 | the "SUMA LISTW" total succeeds exactly when each of the five counts (a missing one read as 0) is a number. With non-negative counts the total is at least each count |
| PdfGenerator.MissingPieceIsZero | pdf_generator.py:755-756 | a missing count and an explicit 0 give the same total |
| PdfGenerator.PieceSumUnchanged | pdf_generator.py:755-756 | keys outside the five do not affect the total |
| PdfGenerator.PieceSumBounds | pages/Formularz.py:599-600 | with non-negative counts the total is non-negative and at least each count |
| PdfGenerator.PieceSumStep | pages/Formularz.py:649-650 | one more piece of a kind raises the total by exactly one |
| PdfGenerator.GeneratePdfForOrder | pdf_generator.py:859-877 | only "drzwi" and "podlogi" have a generator; anything else raises ValueError |
| PdfGenerator.DateStamp | pdf_generator.py:909 | the `%Y%m%d` stamp is 8 characters |
| PdfGenerator.DateStampDigits | pdf_generator.py:909 | for a valid date the stamp's first four digits read back as the year, the next two as the month and the last two as the day |
| PdfGenerator.DisplayPdfDownloadButton | pdf_generator.py:894-925 | a file is offered exactly when the type has a generator, building did not raise and the layout did not fail. Building raises on `strftime` of a truthy date field that is not a date (547, 683, 687, 733, 832, 836), on `.upper()` or `+ " cm"` of a truthy non-string (581, 689, 838), on a non-dict opening config, on a truthy non-string under the odd door-type key, on a skirting sum that is not numeric, or on an unguarded info panel none of whose fields is truthy (`Table([])`). The file name is `{type}_{room}_{date}_{id[:8]}.pdf` |
| PdfGenerator.EntranceDoorPdfFails | pdf_generator.py:872-877 | a "drzwi_wejsciowe" PDF always fails |
| PdfGenerator.PanelEmptyIffAllFalsy | pdf_generator.py:386-395 | an info panel's table has no row exactly when none of its fields is truthy |
| PdfGenerator.FloorPdfNeedsThresholdStrips | pdf_generator.py:767-774 | a floor order whose three `listwy_*` threshold-strip fields are all empty never yields a PDF: the "LISTWY PROGOWE" panel is an empty table |
| PdfGenerator.DownloadFileNameParts | pdf_generator.py:910 | the file name starts with the order type and '_' and ends with at most 8 characters of the id and ".pdf" |

## Left out

- Streamlit rendering, widgets, session state, reruns, progress bars and login gating: these are UI. The model keeps the decisions behind them: the missing-field lists, the radio choices and the selected codes.
- Firebase initialisation, credentials and `create_tables_if_not_exist`: I/O. The store is the in-memory `DocStore.Store`.
- `get_all_drzwi`, `get_all_podlogi` and the entrance-door read: they only fetch. The folder page takes the three fetched lists as inputs.
- Clocks (`datetime.now`, `date.today`), `secrets.choice`, Firestore's id allocation and `os.path.exists`: these are parameters. The draws are constrained to the 36-character alphabet, and no distribution is modelled.
- Unicode NFKD itself: modelled as any per-character fold that keeps ASCII, yields only ASCII and may drop characters (`Foldery.AsciiFold`), plus one concrete fold for Polish letters.
- `finalize_draft`, `get_drafts_for_monter`, `update_draft_images` and `display_images_with_edit`: these are defined elsewhere. `finalize_draft` is a function parameter. The drafts and the remaining images are inputs.
- The ReportLab layout: `DoorDiagram`, `DoorPhotoWithLabels`, styles, fonts, tables and `doc.build`. This is floating-point geometry in a foreign library. A layout failure is the `layoutFault` parameter. ReportLab is not part of this model; the one behaviour of it the model does state is that `Table` with no rows raises `ValueError` (its default `emptyTableAction` is 'error'), which `PdfGenerator.EmptyPanelRaises` folds into the build failures.
- QR image generation, base64 encoding and `create_download_link`: foreign libraries. Only the QR payload text is modelled.
- main.py and the record editors' widgets, apart from their status picker: these are UI.
- The `today_count` metric and the `nice_label` text of the folder page: display only.
- The `.strip()` of the text filters happens in the widget code: the filter values are taken as already stripped.
- Foldery `__folder`/`__dt`: the filtered records carry their folder key and datetime in an `Entry` value instead of being written into the record dict in place.
- Foldery timezones: a stored timestamp is aware and every other datetime is naive; this is all the model keeps of time zones. Aware datetimes compare by their fields, as Firestore returns them all in UTC.
- `Dates.ParseIso`: only `YYYY-MM-DD` and `YYYY-MM-DD[ T]HH:MM:SS` are read. Other `fromisoformat` forms (fractions, offsets) fall back to `datetime.min` here.
- `Foldery.DateSuffix`: years below 1000 or negative fields are not formatted as `strftime` would; stored dates are assumed to be real calendar dates.
- `Values.Lower`: only ASCII and Polish capitals are lowered. Python's `str.lower` also lowers other scripts (Ü, Cyrillic) and can change the length ("İ").
- `FolderView.Admit`: its case-insensitive text filters use `Values.Lower`, so a filter that differs from the text only in a letter outside ASCII and Polish does not match here, though it does in Python.
- `FirebaseConfig.WorklistAsWritten`: a `data_utworzenia` that is a list, a dict or None makes the sort raise here. Python does compare two lists element by element.
- `FirebaseConfig.GetFormsForCompletion`: returns `FirebaseConfig.WorklistAsWritten`, so it shares the list-key gap above.
- `Przechowalnia.CountRooms`: `True` and `1` would share one dict key in Python; here they are two rooms.
- `Values.Show`: `str()` of a dict or a list is a placeholder, not Python's repr.
- `Przechowalnia.RoomOptions`: raises TypeError whenever a room is not a string. Python would also sort a list made only of numbers.
- `Przechowalnia.RoomFilter`: the equality `True == 1` of Python is not modelled (`Bool` and `Int` values never compare equal).
- `PdfGenerator.PieceSum`: a boolean count raises here, although Python adds it as 0 or 1, so the "succeeds exactly when every count is a number" of its row counts an int only.
- `PdfGenerator.DateStamp`: years below 1000 are zero-padded to four digits here; `datetime.now()` never gives such a year.
- `PdfGenerator.SkirtingSum`: a boolean count raises here, although Python adds it as 0 or 1. A list of string counts also raises here, although Python would concatenate it when every count is a string.
- `Przechowalnia.ImagesToWrite`: a `zdjecia` value that is not a list is treated as having no images.
- `add_door_photo` is not modelled separately. Its selection and search are those of `_find_door_image_helper` (`PdfGenerator.FindDoorImage`), and the rest is layout.
- `PdfGenerator.JoinPath`: `os.path.join` is concatenation, which is exact for the directories used, all of which end in '/'.
- Firestore's dotted field paths in `update` are not interpreted: an update key is a plain field name.

## Findings

| source | as written | input that shows it | evidently intended | confidence | as-written member | corrected member |
|---|---|---|---|---|---|---|
| pages/Przechowalnia.py:317-323, 370-375 | the radio offers "LEWE"/"PRAWE" but the save compares with "LEWE przylgowe"/"PRAWE przylgowe" | a draft with `strona_otwierania = {lewe_przyl: True}` opened and saved | the rebated side survives editing | high, not executed | Przechowalnia.SidesAsWrittenRoundTrip | Przechowalnia.SidesRoundTrip |
| pdf_generator.py:625, 636 | the door type is read from the key 'typ_drzwi/przylgowe.png', and the picture is built with an unsupported `show_overlays` argument | any door order with `typ_drzwi` = "Przylgowe" and the picture files present | the door-type picture for `typ_drzwi` appears in the PDF | high, not executed | PdfGenerator.DoorTypeSlotAsWritten | PdfGenerator.DoorTypeSlot |
| pages/Foldery.py:303-304 | the status list lacks "pomiary_wykonane", and `.index` raises ValueError | a record saved by `save_pomiary_data` (status "pomiary_wykonane") opened in an editor | the editor opens on the stored status | high, not executed | Foldery.StatusPickerRejectsMeasured | Foldery.StatusIndexFixedCorrect |
| pages/Foldery.py:30-31 | NFKD has no decomposition for Ł/ł, so they are dropped | client "Łukasz Nowak" gives folder "ukasz_nowak_…" | "lukasz_nowak_…", the same folder as the ASCII spelling | medium, not executed | Foldery.StrokeLetterDropped | Foldery.StrokeLetterKept |
| firebase_config.py:361 | the missing-date default `datetime.min` is naive, while Firestore timestamps are timezone-aware, so the sort raises TypeError and the `except` returns [] | two ready forms, one of them without `data_utworzenia` | forms without a date are listed last | medium, not executed | FirebaseConfig.WorklistMixedDatesCounterexample | FirebaseConfig.WorklistCorrect |
