/**
 * The derivations behind the virtual client folders: the client-name slug, the
 * coercion of stored dates, the folder key `name_DD_MM_YYYY`, and the status
 * picker's index lookup in the record editors.
 *
 * Unicode NFKD followed by `encode('ascii', 'ignore')` is a parameter `fold`: each
 * character becomes the ASCII characters of its compatibility decomposition (often
 * none). Dropping every non-ASCII character after decomposing leaves only each
 * character's own decomposition, so folding character by character is exact.
 */
module Foldery {
  import opened Values
  import opened Dates

  // ---------------------------------------------------------------------------
  // ASCII folding
  // ---------------------------------------------------------------------------

  predicate IsAscii(c: char) { c as int < 128 }

  /** What NFKD plus ASCII-ignore can be: ASCII output, and ASCII characters left alone. */
  ghost predicate AsciiFold(fold: char -> string) {
    (forall c, i :: 0 <= i < |fold(c)| ==> IsAscii(fold(c)[i]))
    && (forall c :: IsAscii(c) ==> fold(c) == [c])
  }

  function FoldAll(fold: char -> string, s: string): string {
    if s == [] then [] else fold(s[0]) + FoldAll(fold, s[1..])
  }

  /** The NFKD letters of Polish names: the accent is dropped; 'Ł' and 'ł' have no decomposition. */
  function PolishFold(c: char): string {
    if IsAscii(c) then [c]
    else if c == 'ą' then "a" else if c == 'ć' then "c" else if c == 'ę' then "e"
    else if c == 'ń' then "n" else if c == 'ó' then "o" else if c == 'ś' then "s"
    else if c == 'ź' || c == 'ż' then "z"
    else if c == 'Ą' then "A" else if c == 'Ć' then "C" else if c == 'Ę' then "E"
    else if c == 'Ń' then "N" else if c == 'Ó' then "O" else if c == 'Ś' then "S"
    else if c == 'Ź' || c == 'Ż' then "Z"
    else []
  }

  lemma PolishFoldIsAsciiFold()
    ensures AsciiFold(PolishFold)
  {
  }

  // ---------------------------------------------------------------------------
  // The slug: `re.sub(r'[^a-zA-Z0-9]+', '_', s).strip('_').lower()`
  // ---------------------------------------------------------------------------

  /** The alphanumeric characters of `s`, in order. */
  function Alnums(s: string): (r: string)
    ensures forall i :: 0 <= i < |r| ==> IsAlnum(r[i])
  {
    if s == [] then [] else (if IsAlnum(s[0]) then [s[0]] else []) + Alnums(s[1..])
  }

  lemma {:induction false} AlnumsAppend(a: string, b: string)
    ensures Alnums(a + b) == Alnums(a) + Alnums(b)
  {
    if a == [] {
      assert a + b == b;
    } else {
      assert (a + b)[0] == a[0] && (a + b)[1..] == a[1..] + b;
      AlnumsAppend(a[1..], b);
    }
  }

  /** Every character alphanumeric or '_'. */
  predicate WordChars(s: string) {
    forall i :: 0 <= i < |s| ==> IsAlnum(s[i]) || s[i] == '_'
  }

  /** No two '_' in a row. */
  predicate NoDoubleUnderscore(s: string) {
    forall i :: 0 <= i < |s| - 1 ==> !(s[i] == '_' && s[i + 1] == '_')
  }

  /** What a normalised name looks like. */
  predicate IsSlug(s: string) {
    s != [] && s[0] != '_' && s[|s| - 1] != '_' && NoDoubleUnderscore(s)
    && forall i :: 0 <= i < |s| ==> IsAsciiLower(s[i]) || IsDigit(s[i]) || s[i] == '_'
  }

  /** `s` without its leading run of non-alphanumeric characters. */
  function SkipNonAlnum(s: string): (r: string)
    ensures |r| <= |s| && r == s[|s| - |r|..]
    ensures r == [] || IsAlnum(r[0])
    ensures Alnums(r) == Alnums(s)
  {
    if s == [] || IsAlnum(s[0]) then s else SkipNonAlnum(s[1..])
  }

  /** Each maximal run of characters outside `[a-zA-Z0-9]` replaced by one '_'. */
  function Collapse(s: string): (r: string)
    decreases |s|
    ensures WordChars(r) && NoDoubleUnderscore(r)
    ensures Alnums(r) == Alnums(s)
    ensures r == [] <==> s == []
    ensures r != [] ==> (r[0] == '_' <==> !IsAlnum(s[0]))
  {
    if s == [] then []
    else if IsAlnum(s[0]) then
      var rest := Collapse(s[1..]);
      assert Alnums(s) == [s[0]] + Alnums(s[1..]);
      [s[0]] + rest
    else
      var rest := Collapse(SkipNonAlnum(s[1..]));
      assert Alnums(s) == Alnums(s[1..]);
      ['_'] + rest
  }

  /** `s.lstrip('_')`. */
  function TrimLeft(s: string): (r: string)
    ensures r == [] || r[0] != '_'
    ensures |r| <= |s| && r == s[|s| - |r|..]
    ensures WordChars(s) ==> WordChars(r) && Alnums(r) == Alnums(s)
    ensures NoDoubleUnderscore(s) ==> NoDoubleUnderscore(r)
  {
    if s != [] && s[0] == '_' then TrimLeft(s[1..]) else s
  }

  /** `s.rstrip('_')`. */
  function TrimRight(s: string): (r: string)
    ensures r == [] || r[|r| - 1] != '_'
    ensures |r| <= |s| && r == s[..|r|]
    ensures WordChars(s) ==> WordChars(r) && Alnums(r) == Alnums(s)
    ensures NoDoubleUnderscore(s) ==> NoDoubleUnderscore(r)
    ensures s != [] && s[0] != '_' ==> r == [] || r[0] != '_'
  {
    if s != [] && s[|s| - 1] == '_' then
      var init := s[..|s| - 1];
      assert s == init + [s[|s| - 1]];
      AlnumsAppend(init, [s[|s| - 1]]);
      TrimRight(init)
    else s
  }

  lemma {:induction false} AlnumsOfLower(s: string)
    requires WordChars(s)
    ensures Alnums(Lower(s)) == Lower(Alnums(s))
  {
    if s != [] {
      AlnumsOfLower(s[1..]);
      assert Lower(s)[1..] == Lower(s[1..]);
    }
  }

  /** A word with no '_' at either end is empty exactly when it has no alphanumeric character. */
  lemma EmptyWordHasNoAlnums(t: string)
    requires WordChars(t) && NoDoubleUnderscore(t)
    requires t == [] || (t[0] != '_' && t[|t| - 1] != '_')
    ensures t == [] <==> Alnums(t) == []
  {
    if t != [] {
      assert IsAlnum(t[0]);
      assert Alnums(t) == [t[0]] + Alnums(t[1..]);
    }
  }

  /** Lowering a word gives the slug alphabet and keeps every '_' where it was. */
  lemma {:induction false} LowerWord(t: string)
    requires WordChars(t)
    ensures forall i :: 0 <= i < |t| ==> (Lower(t)[i] == '_' <==> t[i] == '_')
    ensures forall i :: 0 <= i < |t| ==> IsAsciiLower(Lower(t)[i]) || IsDigit(Lower(t)[i]) || Lower(t)[i] == '_'
  {
    forall i | 0 <= i < |t|
      ensures IsAsciiLower(Lower(t)[i]) || IsDigit(Lower(t)[i]) || Lower(t)[i] == '_'
    {
      var c := t[i];
      if IsAsciiLower(c) || IsDigit(c) {
        assert c !in PolishUpper;
      }
    }
  }

  /** The regex substitution, the strip and the lowering, in that order. */
  function Slug(s: string): (r: string)
    ensures r == [] <==> Alnums(s) == []
    ensures r != [] ==> IsSlug(r)
    ensures Alnums(r) == Lower(Alnums(s))
  {
    var c := Collapse(s);
    var l := TrimLeft(c);
    var t := TrimRight(l);
    assert WordChars(t) && NoDoubleUnderscore(t) && Alnums(t) == Alnums(s);
    assert t == [] || (t[0] != '_' && t[|t| - 1] != '_');
    LowerSlug(t);
    Lower(t)
  }

  /** Lowering a trimmed word gives a slug with the same letters, lowered. */
  lemma LowerSlug(t: string)
    requires WordChars(t) && NoDoubleUnderscore(t)
    requires t == [] || (t[0] != '_' && t[|t| - 1] != '_')
    ensures Lower(t) == [] <==> Alnums(t) == []
    ensures Lower(t) != [] ==> IsSlug(Lower(t))
    ensures Alnums(Lower(t)) == Lower(Alnums(t))
  {
    EmptyWordHasNoAlnums(t);
    AlnumsOfLower(t);
    LowerWord(t);
    var r := Lower(t);
    assert |r| == |t|;
    assert forall i :: 0 <= i < |r| ==> (r[i] == '_' <==> t[i] == '_');
  }

  /** On a string already shaped like a slug, apart from case, the slug only lowers. */
  lemma SlugOfWord(s: string)
    requires s != [] && WordChars(s) && NoDoubleUnderscore(s) && s[0] != '_' && s[|s| - 1] != '_'
    ensures Slug(s) == Lower(s)
  {
    CollapseWordChars(s);
    assert TrimLeft(s) == s;
    assert TrimRight(s) == s;
  }

  const Fallback := "nieznany_klient"

  /**
   * `_normalize_name`: the slug of the folded name, or "nieznany_klient" for an empty
   * name or one where nothing alphanumeric survives the folding.
   */
  function NormalizeName(fold: char -> string, text: string): (r: string)
    ensures IsSlug(r)
    ensures text == "" || Alnums(FoldAll(fold, text)) == [] ==> r == Fallback
    ensures text != "" && Alnums(FoldAll(fold, text)) != [] ==> Alnums(r) == Lower(Alnums(FoldAll(fold, text)))
  {
    assert IsSlug(Fallback);
    if text == "" then Fallback
    else
      var n := Slug(FoldAll(fold, text));
      if n == "" then Fallback else n
  }

  lemma {:induction false} FoldAllAscii(fold: char -> string, s: string)
    requires AsciiFold(fold)
    requires forall i :: 0 <= i < |s| ==> IsAscii(s[i])
    ensures FoldAll(fold, s) == s
  {
    if s != [] {
      FoldAllAscii(fold, s[1..]);
    }
  }

  lemma {:induction false} CollapseWordChars(s: string)
    requires WordChars(s) && NoDoubleUnderscore(s)
    ensures Collapse(s) == s
  {
    if s != [] {
      var t := s[1..];
      assert s == [s[0]] + t;
      assert WordChars(t) by {
        forall i | 0 <= i < |t| ensures IsAlnum(t[i]) || t[i] == '_' {
          assert t[i] == s[i + 1];
        }
      }
      assert NoDoubleUnderscore(t) by {
        forall i | 0 <= i < |t| - 1 ensures !(t[i] == '_' && t[i + 1] == '_') {
          assert t[i] == s[i + 1] && t[i + 1] == s[i + 2];
        }
      }
      CollapseWordChars(t);
      if IsAlnum(s[0]) {
        assert Collapse(s) == [s[0]] + Collapse(t);
      } else {
        if t != [] {
          assert t[0] == s[1];
          assert IsAlnum(t[0]);
        }
        assert SkipNonAlnum(t) == t;
        assert Collapse(s) == ['_'] + Collapse(t);
      }
    }
  }

  /** An alphanumeric character is copied through unchanged. */
  lemma CollapseAlnum(c: char, t: string)
    requires IsAlnum(c)
    ensures Collapse([c] + t) == [c] + Collapse(t)
  {
    assert ([c] + t)[1..] == t;
  }

  /** One more alphanumeric character in front of a word that is copied through. */
  lemma CollapseWordStep(c: char, u: string, t: string)
    requires IsAlnum(c)
    requires Collapse(u + t) == u + Collapse(t)
    ensures Collapse([c] + u + t) == [c] + u + Collapse(t)
  {
    assert [c] + u + t == [c] + (u + t);
    CollapseAlnum(c, u + t);
  }

  /** A leading alphanumeric word is copied through unchanged. */
  lemma {:induction false} CollapseWordPrefix(w: string, t: string)
    requires forall i :: 0 <= i < |w| ==> IsAlnum(w[i])
    ensures Collapse(w + t) == w + Collapse(t)
  {
    if w == [] {
      assert w + t == t;
    } else {
      var u := w[1..];
      assert forall i :: 0 <= i < |u| ==> IsAlnum(u[i]) by {
        assert forall i :: 0 <= i < |u| ==> u[i] == w[i + 1];
      }
      CollapseWordPrefix(u, t);
      CollapseWordStep(w[0], u, t);
      assert w == [w[0]] + u;
    }
  }

  /** A run with no alphanumeric character is skipped up to the next word. */
  lemma {:induction false} SkipRunBeforeWord(sep: string, t: string)
    requires forall i :: 0 <= i < |sep| ==> !IsAlnum(sep[i])
    requires t == [] || IsAlnum(t[0])
    ensures SkipNonAlnum(sep + t) == t
  {
    if sep == [] {
      assert sep + t == t;
    } else {
      assert (sep + t)[1..] == sep[1..] + t;
      SkipRunBeforeWord(sep[1..], t);
    }
  }

  /** A non-empty separator run before a word (or the end) becomes one '_'. */
  lemma CollapseRun(sep: string, t: string)
    requires sep != [] && forall i :: 0 <= i < |sep| ==> !IsAlnum(sep[i])
    requires t == [] || IsAlnum(t[0])
    ensures Collapse(sep + t) == "_" + Collapse(t)
  {
    var run := sep + t;
    assert run != [] && !IsAlnum(run[0]);
    assert run[1..] == sep[1..] + t;
    SkipRunBeforeWord(sep[1..], t);
    assert SkipNonAlnum(run[1..]) == t;
  }

  /**
   * Where the '_' goes: a word, a non-empty separator run and the rest become the word,
   * exactly one '_', and the collapsed rest.
   */
  lemma CollapseSeparator(w: string, sep: string, t: string)
    requires forall i :: 0 <= i < |w| ==> IsAlnum(w[i])
    requires sep != [] && forall i :: 0 <= i < |sep| ==> !IsAlnum(sep[i])
    requires t == [] || IsAlnum(t[0])
    ensures Collapse(w + sep + t) == w + "_" + Collapse(t)
  {
    var run := sep + t;
    assert w + sep + t == w + run;
    CollapseWordPrefix(w, run);
    CollapseRun(sep, t);
    assert w + "_" + Collapse(t) == w + ("_" + Collapse(t));
  }

  lemma {:induction false} LowerOfLower(s: string)
    requires forall i :: 0 <= i < |s| ==> IsAsciiLower(s[i]) || IsDigit(s[i]) || s[i] == '_'
    ensures Lower(s) == s
  {
    if s != [] {
      LowerOfLower(s[1..]);
    }
  }

  /** A slug normalises to itself. */
  lemma SlugIsFixpoint(fold: char -> string, s: string)
    requires AsciiFold(fold) && IsSlug(s)
    ensures NormalizeName(fold, s) == s
  {
    FoldAllAscii(fold, s);
    SlugOfWord(s);
    LowerOfLower(s);
  }

  /** Normalising a normalised name changes nothing. */
  lemma NormalizeNameIdempotent(fold: char -> string, text: string)
    requires AsciiFold(fold)
    ensures NormalizeName(fold, NormalizeName(fold, text)) == NormalizeName(fold, text)
  {
    SlugIsFixpoint(fold, NormalizeName(fold, text));
  }

  // ---------------------------------------------------------------------------
  // 'Ł' and 'ł'
  // ---------------------------------------------------------------------------

  /** NFKD leaves 'Ł' alone, so the name loses its first letter. */
  lemma StrokeLetterDropped(fold: char -> string)
    requires AsciiFold(fold) && fold('Ł') == []
    ensures NormalizeName(fold, "Łukasz") == "ukasz"
    ensures NormalizeName(fold, "Lukasz") == "lukasz"
  {
    assert FoldAll(fold, "Łukasz") == FoldAll(fold, "ukasz") by {
      assert "Łukasz"[1..] == "ukasz";
    }
    UkaszIsSlug(fold);
    LukaszNormalizes(fold);
  }

  lemma UkaszIsSlug(fold: char -> string)
    requires AsciiFold(fold)
    ensures Slug(FoldAll(fold, "ukasz")) == "ukasz"
  {
    assert IsSlug("ukasz");
    SlugIsFixpoint(fold, "ukasz");
  }

  lemma LukaszNormalizes(fold: char -> string)
    requires AsciiFold(fold)
    ensures NormalizeName(fold, "Lukasz") == "lukasz"
  {
    LukaszFolds(fold);
    LukaszSlug();
  }

  lemma LukaszFolds(fold: char -> string)
    requires AsciiFold(fold)
    ensures FoldAll(fold, "Lukasz") == "Lukasz"
  {
    FoldAllAscii(fold, "Lukasz");
  }

  lemma LukaszSlug()
    ensures Slug("Lukasz") == "lukasz"
  {
    LukaszIsWord();
    LowerLukasz();
  }

  lemma LukaszIsWord()
    ensures Slug("Lukasz") == Lower("Lukasz")
  {
    var s := "Lukasz";
    assert WordChars(s);
    assert NoDoubleUnderscore(s);
    SlugOfWord(s);
  }

  lemma LowerLukasz()
    ensures Lower("Lukasz") == "lukasz"
  {
    assert "Lukasz"[1..] == "ukasz";
    assert Lower("Lukasz") == [LowerChar('L')] + Lower("ukasz");
    LowerOfLower("ukasz");
  }

  /** The fold with the stroke letters mapped to their base letters first. */
  function WithStrokes(fold: char -> string): (f: char -> string)
    ensures f('Ł') == "L" && f('ł') == "l"
    ensures forall c :: c != 'Ł' && c != 'ł' ==> f(c) == fold(c)
  {
    c => if c == 'Ł' then "L" else if c == 'ł' then "l" else fold(c)
  }

  /** The stroke letters mapped to their base letters in the text. */
  function MapStrokes(s: string): (r: string) {
    ReplaceChar(ReplaceChar(s, 'Ł', 'L'), 'ł', 'l')
  }

  lemma {:induction false} FoldAllWithStrokes(fold: char -> string, s: string)
    requires AsciiFold(fold)
    ensures FoldAll(WithStrokes(fold), s) == FoldAll(fold, MapStrokes(s))
  {
    if s != [] {
      FoldAllWithStrokes(fold, s[1..]);
      assert MapStrokes(s)[1..] == MapStrokes(s[1..]);
    }
  }

  /**
   * With the corrected fold a name normalises exactly as the same name written with
   * 'L'/'l' for 'Ł'/'ł', so "Łukasz" and "Lukasz" share a folder.
   */
  lemma StrokeLetterKept(fold: char -> string, text: string)
    requires AsciiFold(fold)
    ensures AsciiFold(WithStrokes(fold))
    ensures NormalizeName(WithStrokes(fold), text) == NormalizeName(fold, MapStrokes(text))
    ensures NormalizeName(WithStrokes(fold), "Łukasz") == NormalizeName(fold, "Lukasz")
  {
    WithStrokesIsAscii(fold);
    NormalizeWithStrokes(fold, text);
    NormalizeWithStrokes(fold, "Łukasz");
    LukaszStrokes();
  }

  lemma WithStrokesIsAscii(fold: char -> string)
    requires AsciiFold(fold)
    ensures AsciiFold(WithStrokes(fold))
  {
    var f := WithStrokes(fold);
    forall c, i | 0 <= i < |f(c)|
      ensures IsAscii(f(c)[i])
    {
      if c != 'Ł' && c != 'ł' {
        assert f(c) == fold(c);
      }
    }
    forall c | IsAscii(c)
      ensures f(c) == [c]
    {
      assert c != 'Ł' && c != 'ł';
    }
  }

  lemma NormalizeWithStrokes(fold: char -> string, text: string)
    requires AsciiFold(fold)
    ensures NormalizeName(WithStrokes(fold), text) == NormalizeName(fold, MapStrokes(text))
  {
    FoldAllWithStrokes(fold, text);
  }

  lemma LukaszStrokes()
    ensures MapStrokes("Łukasz") == "Lukasz"
  {
    assert ReplaceChar("Łukasz", 'Ł', 'L') == "Lukasz";
  }

  // ---------------------------------------------------------------------------
  // Dates and the folder key
  // ---------------------------------------------------------------------------

  /**
   * `_as_dt`: a datetime as it is, a date at midnight, an ISO string parsed, and
   * `datetime.min` for an unparsable string or any other value.
   */
  function AsDt(v: Value): (r: DateTime)
    ensures v.Time? ==> r == v.t
    ensures v.Day? ==> r == AtMidnight(v.d)
    ensures v.Str? && ParseIso(v.s).Some? ==> r == ParseIso(v.s).value
    ensures v.Str? && ParseIso(v.s).None? ==> r == DateTimeMin
    ensures !v.Time? && !v.Day? && !v.Str? ==> r == DateTimeMin
  {
    match v
    case Time(t) => t
    case Day(d) => AtMidnight(d)
    case Str(s) => (match ParseIso(s) case Some(t) => t case None => DateTimeMin)
    case _ => DateTimeMin
  }

  /** A datetime stored as its own text reads back as the same datetime. */
  lemma AsDtReadsShownDates(t: DateTime)
    requires ValidDateTime(t) && t.micro == 0
    ensures AsDt(Str(ShowDateTime(t))) == t
  {
    IsoRoundTrip(t);
  }

  /** `a or b`. */
  function Or(a: Value, b: Value): Value {
    if Truthy(a) then a else b
  }

  /** `rec.get('data_pomiary') or rec.get('data_utworzenia')`: what the folder's datetime is read from. */
  function DateSource(rec: Record): Value {
    Or(Get(rec, "data_pomiary"), Get(rec, "data_utworzenia"))
  }

  /** The day a folder is for: none when the date is `datetime.min`. */
  function FolderDay(dt: DateTime): Option<Date> {
    if dt == DateTimeMin then None else Some(dt.date)
  }

  function Pad(n: int, width: nat): string {
    PadDigits(if n < 0 then 0 else n, width)
  }

  /** `_DD_MM_YYYY`, or `_00_00_0000` for `datetime.min`. */
  function DateSuffix(dt: DateTime): (r: string)
    ensures |r| == 11 && r[0] == '_' && r[3] == '_' && r[6] == '_'
    ensures dt == DateTimeMin ==> r == "_00_00_0000"
  {
    if dt == DateTimeMin then "_00_00_0000"
    else "_" + Pad(dt.date.day, 2) + "_" + Pad(dt.date.month, 2) + "_" + Pad(dt.date.year, 4)
  }

  lemma DateSuffixDigits(dt: DateTime)
    requires ValidDate(dt.date) && dt != DateTimeMin
    ensures var s := DateSuffix(dt);
            AllDigits(s[1..3]) && AllDigits(s[4..6]) && AllDigits(s[7..11])
            && DigitsValue(s[1..3]) == dt.date.day && DigitsValue(s[4..6]) == dt.date.month
            && DigitsValue(s[7..11]) == dt.date.year
  {
    var s := DateSuffix(dt);
    assert s[1..3] == Pad(dt.date.day, 2) && s[4..6] == Pad(dt.date.month, 2) && s[7..11] == Pad(dt.date.year, 4);
    Pow10Values();
    PadDigitsRoundTrip(dt.date.day, 2);
    PadDigitsRoundTrip(dt.date.month, 2);
    PadDigitsRoundTrip(dt.date.year, 4);
  }

  /** Two folder suffixes agree exactly when they are for the same day (or both undated). */
  lemma DateSuffixInjective(a: DateTime, b: DateTime)
    requires ValidDate(a.date) && ValidDate(b.date)
    ensures DateSuffix(a) == DateSuffix(b) <==> FolderDay(a) == FolderDay(b)
  {
    if a != DateTimeMin && b != DateTimeMin {
      DatedSuffixesAgree(a, b);
    } else if a != DateTimeMin {
      DatedSuffixNotMin(a);
    } else if b != DateTimeMin {
      DatedSuffixNotMin(b);
    }
  }

  lemma DatedSuffixesAgree(a: DateTime, b: DateTime)
    requires ValidDate(a.date) && ValidDate(b.date) && a != DateTimeMin && b != DateTimeMin
    ensures DateSuffix(a) == DateSuffix(b) <==> a.date == b.date
  {
    DateSuffixDigits(a);
    DateSuffixDigits(b);
    if DateSuffix(a) == DateSuffix(b) {
      assert a.date.day == b.date.day && a.date.month == b.date.month && a.date.year == b.date.year;
    }
  }

  lemma DatedSuffixNotMin(a: DateTime)
    requires ValidDate(a.date) && a != DateTimeMin
    ensures DateSuffix(a) != "_00_00_0000"
  {
    DateSuffixDigits(a);
    assert DigitsValue(DateSuffix(a)[1..3]) >= 1;
    assert DigitsValue("00") == 0;
  }

  /**
   * `_folder_name`: the slug of `imie_nazwisko or nazwisko or ''` and the day of
   * `data_pomiary or data_utworzenia`, with that datetime; raises when the name is a
   * non-empty value that is not a string.
   */
  function FolderName(fold: char -> string, rec: Record): (r: Result<(string, DateTime)>)
    ensures var name := Or(Or(Get(rec, "imie_nazwisko"), Get(rec, "nazwisko")), Str(""));
            r.Raised? <==> !name.Str?
    ensures var name := Or(Or(Get(rec, "imie_nazwisko"), Get(rec, "nazwisko")), Str(""));
            r.Ok? ==> r.value.0 == NormalizeName(fold, name.s) + DateSuffix(r.value.1)
    ensures r.Ok? ==> r.value.1 == AsDt(DateSource(rec))
  {
    var name := Or(Or(Get(rec, "imie_nazwisko"), Get(rec, "nazwisko")), Str(""));
    var dt := AsDt(DateSource(rec));
    match name
    case Str(s) => Ok((NormalizeName(fold, s) + DateSuffix(dt), dt))
    case _ => Raised("TypeError")
  }

  /**
   * The folder key names its client and day: two records share a folder exactly when
   * their names normalise alike and their dates fall on the same day.
   */
  lemma FolderKeyInjective(fold: char -> string, r1: Record, r2: Record)
    requires FolderName(fold, r1).Ok? && FolderName(fold, r2).Ok?
    requires ValidDate(FolderName(fold, r1).value.1.date) && ValidDate(FolderName(fold, r2).value.1.date)
    ensures var (k1, dt1) := FolderName(fold, r1).value;
            var (k2, dt2) := FolderName(fold, r2).value;
            var n1 := NormalizeName(fold, Or(Or(Get(r1, "imie_nazwisko"), Get(r1, "nazwisko")), Str("")).s);
            var n2 := NormalizeName(fold, Or(Or(Get(r2, "imie_nazwisko"), Get(r2, "nazwisko")), Str("")).s);
            k1 == k2 <==> n1 == n2 && FolderDay(dt1) == FolderDay(dt2)
  {
    var (k1, dt1) := FolderName(fold, r1).value;
    var (k2, dt2) := FolderName(fold, r2).value;
    var n1 := NormalizeName(fold, Or(Or(Get(r1, "imie_nazwisko"), Get(r1, "nazwisko")), Str("")).s);
    var n2 := NormalizeName(fold, Or(Or(Get(r2, "imie_nazwisko"), Get(r2, "nazwisko")), Str("")).s);
    DateSuffixInjective(dt1, dt2);
    if k1 == k2 {
      var s1, s2 := DateSuffix(dt1), DateSuffix(dt2);
      assert k1 == n1 + s1 && k2 == n2 + s2;
      assert |n1| == |n2|;
      assert n1 == k1[..|n1|] && n2 == k2[..|n2|];
      assert s1 == k1[|n1|..] && s2 == k2[|n2|..];
    }
  }

  // ---------------------------------------------------------------------------
  // The status picker of the record editors
  // ---------------------------------------------------------------------------

  const StatusOptions := ["szkic", "pomiary", "aktywny", "zakończony", "anulowany"]

  /** `options.index(v)`: the first position holding `v`, or ValueError. */
  function IndexOf(options: seq<string>, v: Value): (r: Result<nat>)
    ensures r.Ok? ==> r.value < |options| && v == Str(options[r.value])
                      && forall j :: 0 <= j < r.value ==> v != Str(options[j])
    ensures r.Raised? <==> forall j :: 0 <= j < |options| ==> v != Str(options[j])
  {
    if options == [] then Raised("ValueError")
    else if v == Str(options[0]) then Ok(0)
    else match IndexOf(options[1..], v)
      case Ok(i) => Ok(i + 1)
      case Raised(e) => Raised(e)
  }

  lemma {:induction false} IndexOfAppend(a: seq<string>, b: seq<string>, v: Value)
    ensures IndexOf(a, v).Ok? ==> IndexOf(a + b, v) == IndexOf(a, v)
    ensures IndexOf(a, v).Raised? && IndexOf(b, v).Ok? ==> IndexOf(a + b, v) == Ok(|a| + IndexOf(b, v).value)
  {
    if a == [] {
      assert a + b == b;
    } else {
      assert (a + b)[0] == a[0] && (a + b)[1..] == a[1..] + b;
      IndexOfAppend(a[1..], b, v);
    }
  }

  /** The editors' `index=[...].index(data.get('status', 'szkic'))`. */
  function StatusIndex(rec: Record): Result<nat> {
    IndexOf(StatusOptions, GetOr(rec, "status", Str("szkic")))
  }

  /** The picker opens on the stored status when it is one of its options, and raises otherwise. */
  lemma StatusIndexCases(rec: Record)
    ensures "status" !in rec ==> StatusIndex(rec) == Ok(0)
    ensures "status" in rec && rec["status"] in [Str("szkic"), Str("pomiary"), Str("aktywny"), Str("zakończony"), Str("anulowany")]
            ==> StatusIndex(rec).Ok? && Str(StatusOptions[StatusIndex(rec).value]) == rec["status"]
    ensures "status" in rec && rec["status"] !in [Str("szkic"), Str("pomiary"), Str("aktywny"), Str("zakończony"), Str("anulowany")]
            ==> StatusIndex(rec).Raised?
  {
  }

  /** The status the installer's save writes is not an option: opening such a record raises. */
  lemma StatusPickerRejectsMeasured(rec: Record)
    requires "status" in rec && rec["status"] == Str("pomiary_wykonane")
    ensures StatusIndex(rec) == Raised("ValueError")
  {
  }

  /** The options with the installer's status added at the end. */
  const StatusOptionsFixed := StatusOptions + ["pomiary_wykonane"]

  function StatusIndexFixed(rec: Record): Result<nat> {
    IndexOf(StatusOptionsFixed, GetOr(rec, "status", Str("szkic")))
  }

  /**
   * With the installer's status added, every status the workflow writes opens, and
   * every status that opened before opens on the same option.
   */
  lemma StatusIndexFixedCorrect(rec: Record)
    ensures "status" in rec && rec["status"] in [Str("pomiary_wykonane"), Str("aktywny")] ==> StatusIndexFixed(rec).Ok?
    ensures StatusIndex(rec).Ok? ==> StatusIndexFixed(rec) == StatusIndex(rec)
    ensures StatusIndexFixed(rec).Ok? ==> Str(StatusOptionsFixed[StatusIndexFixed(rec).value]) == GetOr(rec, "status", Str("szkic"))
  {
    var v := GetOr(rec, "status", Str("szkic"));
    IndexOfAppend(StatusOptions, ["pomiary_wykonane"], v);
    if v == Str("pomiary_wykonane") {
      assert IndexOf(["pomiary_wykonane"], v) == Ok(0);
    }
  }
}
