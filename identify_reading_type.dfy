/**
 * identify_reading_type.py: is a reading of a kanji an on reading or a kun
 * reading? Looked up in the parsed kanjidic2 records, or guessed from the
 * readings a transliterator proposes when the dictionary is not used.
 */
module IdentifyReadingType {
  import opened Wrappers
  import opened Kana
  import opened Kanjidic
  import opened Homophones

  /** The strings "on", "kun" and "unknown"; Python's `None` is `Option.None`. */
  datatype ReadingType = On | Kun | Unknown

  /** `is_hiragana`: the hiragana block U+3040..U+309F. */
  predicate IsHiragana(c: char)
  {
    '\U{3040}' <= c <= '\U{309F}'
  }

  /** What one `<reading>` element says about `reading`: a match decides, `None` passes on. */
  function MatchOf(r: RawReading, reading: string): Option<ReadingType>
  {
    if r.rType == JaOn then
      if KataToHira(r.text) == reading then Some(On) else None
    else if r.rType == JaKun then
      if KunRoot(r.text) == reading then Some(Kun) else None
    else None
  }

  /** The first reading of `rs`, in document order, that matches `reading`. */
  function FirstMatch(rs: seq<RawReading>, reading: string): Option<ReadingType>
  {
    if rs == [] then None
    else if MatchOf(rs[0], reading).Some? then MatchOf(rs[0], reading)
    else FirstMatch(rs[1..], reading)
  }

  /** The position of the first record whose literal is `kanji`. */
  function FirstRecord(records: seq<Record>, kanji: string): (r: Option<nat>)
    ensures r.Some? ==> r.value < |records| && records[r.value].literal == kanji
    ensures r.Some? ==> forall j :: 0 <= j < r.value ==> records[j].literal != kanji
    ensures r.None? ==> forall j :: 0 <= j < |records| ==> records[j].literal != kanji
  {
    if records == [] then None
    else if records[0].literal == kanji then Some(0)
    else match FirstRecord(records[1..], kanji)
      case None => None
      case Some(i) => Some(i + 1)
  }

  /** The dictionary path: only the first record with the literal is consulted. */
  function DictionaryType(records: seq<Record>, kanji: string, reading: string): Option<ReadingType>
  {
    match FirstRecord(records, kanji)
    case None => None
    case Some(i) => Some(FirstMatch(records[i].readings, reading).GetOr(Unknown))
  }

  /** The fallback's guess for an on reading: at most two characters, all hiragana. */
  predicate LooksOn(reading: string)
  {
    |reading| <= 2 && forall i :: 0 <= i < |reading| ==> IsHiragana(reading[i])
  }

  /** The fallback path over the transliterator's candidates: the first equal one decides. */
  function FallbackType(candidates: seq<string>, reading: string): Option<ReadingType>
  {
    if candidates == [] then None
    else if candidates[0] == reading then Some(if LooksOn(reading) then On else Kun)
    else FallbackType(candidates[1..], reading)
  }

  /**
   * `identify_reading_type(kanji, reading, xml_file, use_xml)`. `source` is the
   * parsed dictionary, `None` when the file is missing; `oracle` gives the
   * `hira` field of each item pykakasi returns for a kanji.
   */
  function ReadingTypeOf(kanji: string, reading: string, source: Option<seq<Record>>,
                         useXml: bool, oracle: string -> seq<string>): Option<ReadingType>
  {
    if kanji == [] || reading == [] then None
    else if useXml && source.Some? then DictionaryType(source.value, kanji, reading)
    else FallbackType(oracle(kanji), reading)
  }

  /** `identify_reading_type`: the search loops with their early returns. */
  method Identify(kanji: string, reading: string, source: Option<seq<Record>>,
                  useXml: bool, oracle: string -> seq<string>) returns (result: Option<ReadingType>)
    ensures result == ReadingTypeOf(kanji, reading, source, useXml, oracle)
  {
    if kanji == [] || reading == [] {
      return None;
    }
    var useXml := useXml;
    if useXml {
      match source
      case None =>
        // FileNotFoundError: fall back to the transliterator
        useXml := false;
      case Some(records) =>
        var i := 0;
        while i < |records|
          invariant 0 <= i <= |records|
          invariant forall j :: 0 <= j < i ==> records[j].literal != kanji
        {
          if records[i].literal == kanji {
            var rs := records[i].readings;
            var k := 0;
            while k < |rs|
              invariant 0 <= k <= |rs|
              invariant FirstMatch(rs, reading) == FirstMatch(rs[k..], reading)
            {
              var r := rs[k];
              assert rs[k..][1..] == rs[k + 1..];
              if r.rType == JaOn {
                if KataToHira(r.text) == reading {
                  return Some(On);
                }
              } else if r.rType == JaKun {
                if KunRoot(r.text) == reading {
                  return Some(Kun);
                }
              }
              k := k + 1;
            }
            return Some(Unknown);
          }
          i := i + 1;
        }
        return None;
    }
    var candidates := oracle(kanji);
    var j := 0;
    while j < |candidates|
      invariant 0 <= j <= |candidates|
      invariant FallbackType(candidates, reading) == FallbackType(candidates[j..], reading)
    {
      assert candidates[j..][1..] == candidates[j + 1..];
      if candidates[j] == reading {
        if |reading| <= 2 && forall c :: 0 <= c < |reading| ==> IsHiragana(reading[c]) {
          return Some(On);
        }
        return Some(Kun);
      }
      j := j + 1;
    }
    return None;
  }

  /** Empty kanji or empty reading: `None`, whatever the dictionary or the transliterator hold. */
  lemma EmptyInputIsNone(kanji: string, reading: string, source: Option<seq<Record>>,
                         useXml: bool, oracle: string -> seq<string>)
    requires kanji == [] || reading == []
    ensures ReadingTypeOf(kanji, reading, source, useXml, oracle) == None
  {
  }

  /** An on reading matches on its hiragana form, a kun reading on its root, nothing else matches. */
  lemma MatchOfCases(r: RawReading, reading: string)
    ensures MatchOf(r, reading) == Some(On) <==> r.rType == JaOn && KataToHira(r.text) == reading
    ensures MatchOf(r, reading) == Some(Kun) <==> r.rType == JaKun && KunRoot(r.text) == reading
    ensures MatchOf(r, reading) != Some(Unknown)
  {
  }

  /** A kun reading with okurigana matches on its root: `おこな.う` for `おこな`. */
  lemma InflectedKunMatchesRoot(root: string, okurigana: string)
    requires '.' !in root
    ensures MatchOf(RawReading(JaKun, root + "." + okurigana), root) == Some(Kun)
  {
    KunRootOfInflected(root, okurigana);
  }

  /** A kun reading is compared on its root only: one with okurigana never matches its own full text. */
  lemma KunFullTextNeverMatches(r: RawReading)
    requires r.rType == JaKun && '.' in r.text
    ensures MatchOf(r, r.text).None?
  {
    assert '.' !in KunRoot(r.text);
  }

  /** Converting katakana gives hiragana: a convertible letter lands in the hiragana block. */
  lemma KataToHiraIsHiragana(s: string)
    requires forall i :: 0 <= i < |s| ==> IsConvertibleKatakana(s[i])
    ensures forall i :: 0 <= i < |KataToHira(s)| ==> IsHiragana(KataToHira(s)[i])
  {
  }

  /** So the fallback's "on" guess holds for the hiragana form of every on reading of one or two katakana letters. */
  lemma ShortOnReadingLooksOn(s: string)
    requires 0 < |s| <= 2
    requires forall i :: 0 <= i < |s| ==> IsConvertibleKatakana(s[i])
    ensures LooksOn(KataToHira(s))
  {
    KataToHiraIsHiragana(s);
  }

  /** The first matching reading decides, whatever follows it. */
  lemma {:induction false} FirstMatchAt(rs: seq<RawReading>, reading: string, k: nat)
    requires k < |rs| && MatchOf(rs[k], reading).Some?
    requires forall j :: 0 <= j < k ==> MatchOf(rs[j], reading).None?
    ensures FirstMatch(rs, reading) == MatchOf(rs[k], reading)
  {
    if k > 0 {
      FirstMatchAt(rs[1..], reading, k - 1);
    }
  }

  /** No reading decides exactly when none matches. */
  lemma {:induction false} FirstMatchNone(rs: seq<RawReading>, reading: string)
    ensures FirstMatch(rs, reading).None? <==> forall k :: 0 <= k < |rs| ==> MatchOf(rs[k], reading).None?
  {
    if rs != [] {
      FirstMatchNone(rs[1..], reading);
      assert forall k :: 1 <= k < |rs| ==> rs[1..][k - 1] == rs[k];
    }
  }

  /** A found kanji whose first matching reading is the `k`-th gets that reading's type. */
  lemma DictionaryFirstMatchDecides(records: seq<Record>, kanji: string, reading: string, i: nat, k: nat)
    requires i < |records| && records[i].literal == kanji
    requires forall j :: 0 <= j < i ==> records[j].literal != kanji
    requires k < |records[i].readings| && MatchOf(records[i].readings[k], reading).Some?
    requires forall j :: 0 <= j < k ==> MatchOf(records[i].readings[j], reading).None?
    ensures records[i].readings[k].rType == JaOn ==> DictionaryType(records, kanji, reading) == Some(On)
    ensures records[i].readings[k].rType == JaKun ==> DictionaryType(records, kanji, reading) == Some(Kun)
  {
    FirstMatchAt(records[i].readings, reading, k);
  }

  /**
   * Document order decides, not the reading type: a kun reading listed before
   * an on reading with the same normalised form makes the answer "kun".
   */
  lemma DictionaryEarlierKunWins(records: seq<Record>, kanji: string, reading: string, i: nat, k: nat, m: nat)
    requires i < |records| && records[i].literal == kanji
    requires forall j :: 0 <= j < i ==> records[j].literal != kanji
    requires k < m < |records[i].readings|
    requires records[i].readings[k].rType == JaKun && KunRoot(records[i].readings[k].text) == reading
    requires records[i].readings[m].rType == JaOn && KataToHira(records[i].readings[m].text) == reading
    requires forall j :: 0 <= j < k ==> MatchOf(records[i].readings[j], reading).None?
    ensures MatchOf(records[i].readings[m], reading) == Some(On)
    ensures DictionaryType(records, kanji, reading) == Some(Kun)
  {
    DictionaryFirstMatchDecides(records, kanji, reading, i, k);
  }

  /** A found kanji is `"unknown"` exactly when none of its readings matches. */
  lemma DictionaryUnknown(records: seq<Record>, kanji: string, reading: string, i: nat)
    requires i < |records| && records[i].literal == kanji
    requires forall j :: 0 <= j < i ==> records[j].literal != kanji
    ensures DictionaryType(records, kanji, reading) == Some(Unknown) <==>
      forall k :: 0 <= k < |records[i].readings| ==> MatchOf(records[i].readings[k], reading).None?
  {
    FirstMatchNone(records[i].readings, reading);
    MatchOfNeverUnknown(records[i].readings, reading);
  }

  /** The first match is never `"unknown"`: that verdict is only the no-match default. */
  lemma {:induction false} MatchOfNeverUnknown(rs: seq<RawReading>, reading: string)
    ensures FirstMatch(rs, reading) != Some(Unknown)
  {
    if rs != [] {
      MatchOfNeverUnknown(rs[1..], reading);
    }
  }

  /** The dictionary path is `None` exactly when no record has the literal. */
  lemma DictionaryNotFound(records: seq<Record>, kanji: string, reading: string)
    ensures DictionaryType(records, kanji, reading) == None <==>
      forall i :: 0 <= i < |records| ==> records[i].literal != kanji
  {
  }

  /** Records after the first one with the literal are never looked at. */
  lemma DictionaryFirstRecordOnly(records: seq<Record>, later: seq<Record>, kanji: string, reading: string)
    requires exists i :: 0 <= i < |records| && records[i].literal == kanji
    ensures DictionaryType(records + later, kanji, reading) == DictionaryType(records, kanji, reading)
  {
    var i :| 0 <= i < |records| && records[i].literal == kanji;
    var a, b := FirstRecord(records + later, kanji), FirstRecord(records, kanji);
    assert (records + later)[i] == records[i];
    assert forall j :: 0 <= j < |records| ==> (records + later)[j] == records[j];
    assert a.value == b.value;
  }

  /**
   * The fallback path: `"on"` for an equal candidate that is at most two hiragana,
   * `"kun"` for any other equal candidate, `None` when no candidate is equal.
   */
  lemma {:induction false} FallbackTypeCases(candidates: seq<string>, reading: string)
    ensures FallbackType(candidates, reading) ==
      if reading in candidates then Some(if LooksOn(reading) then On else Kun) else None
  {
    if candidates != [] {
      FallbackTypeCases(candidates[1..], reading);
      assert candidates == [candidates[0]] + candidates[1..];
    }
  }

  /** The classifier never answers `"unknown"` without a dictionary entry. */
  lemma FallbackNeverUnknown(kanji: string, reading: string, source: Option<seq<Record>>,
                             useXml: bool, oracle: string -> seq<string>)
    requires !useXml || source.None?
    ensures ReadingTypeOf(kanji, reading, source, useXml, oracle) != Some(Unknown)
  {
    FallbackTypeCases(oracle(kanji), reading);
  }

  /** The readings of 日 in a small dictionary in kanjidic2's shape (one of them a pinyin reading). */
  const HiReadings: seq<RawReading> :=
    [RawReading("pinyin", "ri4"), RawReading(JaOn, "ニチ"), RawReading(JaOn, "ジツ"),
     RawReading(JaKun, "ひ"), RawReading(JaKun, "-び"), RawReading(JaKun, "-か")]

  /** The readings of 行. */
  const IkuReadings: seq<RawReading> :=
    [RawReading(JaOn, "コウ"), RawReading(JaOn, "ギョウ"), RawReading(JaOn, "アン"),
     RawReading(JaKun, "い.く"), RawReading(JaKun, "ゆ.く"), RawReading(JaKun, "おこな.う")]

  /** The readings of 生. */
  const SeiReadings: seq<RawReading> :=
    [RawReading(JaOn, "セイ"), RawReading(JaOn, "ショウ"), RawReading(JaKun, "い.きる"),
     RawReading(JaKun, "う.まれる"), RawReading(JaKun, "なま")]

  /** A small dictionary in kanjidic2's shape: 日, 行 and 生. */
  function ToyDictionary(): seq<Record>
  {
    [ Record("日", Some(1), Some("1"), HiReadings),
      Record("行", Some(20), Some("2"), IkuReadings),
      Record("生", Some(29), Some("1"), SeiReadings) ]
  }

  /** 日: にち, the hiragana form of its on reading ニチ, is an on reading. */
  lemma ToyDictionaryHiOn(oracle: string -> seq<string>)
    ensures ReadingTypeOf("日", "にち", Some(ToyDictionary()), true, oracle) == Some(On)
  {
    var d := ToyDictionary();
    assert KataToHira("ニチ") == "にち";
    DictionaryFirstMatchDecides(d, "日", "にち", 0, 1);
  }

  /** 日: ひ is its kun reading; the on readings before it have other lengths. */
  lemma ToyDictionaryHiKun(oracle: string -> seq<string>)
    ensures ReadingTypeOf("日", "ひ", Some(ToyDictionary()), true, oracle) == Some(Kun)
  {
    var d := ToyDictionary();
    KunRootOfPlain("ひ");
    assert MatchOf(d[0].readings[1], "ひ").None? && MatchOf(d[0].readings[2], "ひ").None?;
    DictionaryFirstMatchDecides(d, "日", "ひ", 0, 3);
  }

  /** 日: ぞ matches none of its readings, so it is `"unknown"`. */
  lemma ToyDictionaryHiUnknown(oracle: string -> seq<string>)
    ensures ReadingTypeOf("日", "ぞ", Some(ToyDictionary()), true, oracle) == Some(Unknown)
  {
    var d := ToyDictionary();
    KunRootOfPlain("ひ");
    KunRootOfPlain("-び");
    KunRootOfPlain("-か");
    forall k | 0 <= k < |d[0].readings| ensures MatchOf(d[0].readings[k], "ぞ").None? {
      assert k == 0 || k == 1 || k == 2 || k == 3 || k == 4 || k == 5;
    }
    DictionaryUnknown(d, "日", "ぞ", 0);
  }

  /** 行: おこな matches the kun reading おこな.う on its root, after five readings that do not match. */
  lemma ToyDictionaryIkuKun(oracle: string -> seq<string>)
    ensures ReadingTypeOf("行", "おこな", Some(ToyDictionary()), true, oracle) == Some(Kun)
  {
    var d := ToyDictionary();
    KunRootAt(d[1].readings[3].text, 1);
    KunRootAt(d[1].readings[4].text, 1);
    KunRootAt(d[1].readings[5].text, 3);
    assert d[1].readings[5].text[..3] == "おこな";
    forall k | 0 <= k < 5 ensures MatchOf(d[1].readings[k], "おこな").None? {
      assert k == 0 || k == 1 || k == 2 || k == 3 || k == 4;
    }
    DictionaryFirstMatchDecides(d, "行", "おこな", 1, 5);
  }

  /** 行: こう, the hiragana form of its first reading コウ, is an on reading. */
  lemma ToyDictionaryIkuOn(oracle: string -> seq<string>)
    ensures ReadingTypeOf("行", "こう", Some(ToyDictionary()), true, oracle) == Some(On)
  {
    var d := ToyDictionary();
    assert KataToHira("コウ") == "こう";
    DictionaryFirstMatchDecides(d, "行", "こう", 1, 0);
  }

  /** A hand-built record listing the kun reading か before the on reading カ: か is "kun". */
  lemma ToyKunBeforeOn(oracle: string -> seq<string>)
    ensures ReadingTypeOf("蚊", "か", Some([Record("蚊", None, None, [RawReading(JaKun, "か"), RawReading(JaOn, "カ")])]),
                          true, oracle) == Some(Kun)
  {
    var d := [Record("蚊", None, None, [RawReading(JaKun, "か"), RawReading(JaOn, "カ")])];
    KunRootOfPlain("か");
    assert KataToHira("カ") == "か";
    DictionaryEarlierKunWins(d, "蚊", "か", 0, 0, 1);
  }

  /** A kanji the dictionary lacks is `None` on the dictionary path. */
  lemma ToyDictionaryMissing(oracle: string -> seq<string>)
    ensures ReadingTypeOf("𠀀", "あ", Some(ToyDictionary()), true, oracle) == None
  {
  }

  /** Without the dictionary file the transliterator's candidates decide. */
  lemma MissingFileFallsBack(kanji: string, reading: string, oracle: string -> seq<string>)
    requires kanji != [] && reading != []
    ensures ReadingTypeOf(kanji, reading, None, true, oracle) == FallbackType(oracle(kanji), reading)
  {
  }

  /** A member of a homophone group: `{"kanji": kanji, "type": "on" | "kun"}`. */
  datatype Member = Member(kanji: string, rType: ReadingType)

  /** What one `<reading>` of `kanji` appends: on readings always, kun roots unless empty. */
  function ReadingAppend(kanji: string, r: RawReading): seq<(string, Member)>
  {
    if r.rType == JaOn then [(KataToHira(r.text), Member(kanji, On))]
    else if r.rType == JaKun && KunRoot(r.text) != [] then [(KunRoot(r.text), Member(kanji, Kun))]
    else []
  }

  /** The appends of the readings `rs` of `kanji`, in document order. */
  function RecordAppends(kanji: string, rs: seq<RawReading>): seq<(string, Member)>
  {
    if rs == [] then []
    else RecordAppends(kanji, rs[..|rs| - 1]) + ReadingAppend(kanji, rs[|rs| - 1])
  }

  /** The appends `get_homophone_reading_types` makes: records outside `kanjiList` make none. */
  function TypedAppends(records: seq<Record>, kanjiList: seq<string>): seq<(string, Member)>
  {
    if records == [] then []
    else
      var last := records[|records| - 1];
      TypedAppends(records[..|records| - 1], kanjiList)
        + (if last.literal in kanjiList then RecordAppends(last.literal, last.readings) else [])
  }

  /** Reading `k` adds its own appends after those of the readings before it. */
  lemma RecordAppendsStep(kanji: string, rs: seq<RawReading>, k: nat, before: seq<(string, Member)>)
    requires k < |rs|
    ensures before + RecordAppends(kanji, rs[..k + 1])
         == (before + RecordAppends(kanji, rs[..k])) + ReadingAppend(kanji, rs[k])
  {
    assert rs[..k + 1][..k] == rs[..k];
  }

  /** The body of the inner loop of `get_homophone_reading_types`: file one reading of `kanji`. */
  method FileReading(homophones: Index<Member>, kanji: string, r: RawReading,
                     ghost done: seq<(string, Member)>)
    returns (after: Index<Member>)
    requires Holds(homophones, done)
    ensures Holds(after, done + ReadingAppend(kanji, r))
  {
    if r.rType == JaOn {
      var reading := KataToHira(r.text);
      AppendHolds(homophones, done, reading, Member(kanji, On));
      after := Append(homophones, reading, Member(kanji, On));
    } else if r.rType == JaKun {
      var reading := KunRoot(r.text);
      if reading != [] {
        AppendHolds(homophones, done, reading, Member(kanji, Kun));
        after := Append(homophones, reading, Member(kanji, Kun));
      } else {
        assert done + [] == done;
        after := homophones;
      }
    } else {
      assert done + [] == done;
      after := homophones;
    }
  }

  /** The inner loop of `get_homophone_reading_types`: file each reading of one kanji. */
  method AddReadings(homophones: Index<Member>, kanji: string, rs: seq<RawReading>,
                     ghost before: seq<(string, Member)>)
    returns (after: Index<Member>)
    requires Holds(homophones, before)
    ensures Holds(after, before + RecordAppends(kanji, rs))
  {
    after := homophones;
    var k := 0;
    assert before + RecordAppends(kanji, rs[..0]) == before;
    while k < |rs|
      invariant 0 <= k <= |rs|
      invariant Holds(after, before + RecordAppends(kanji, rs[..k]))
    {
      RecordAppendsStep(kanji, rs, k, before);
      after := FileReading(after, kanji, rs[k], before + RecordAppends(kanji, rs[..k]));
      k := k + 1;
    }
    assert rs[..|rs|] == rs;
  }

  /**
   * `get_homophone_reading_types(kanji_list, xml_file)` over the parsed records:
   * the reading-type homophone index of the kanji in `kanjiList`.
   */
  method GetHomophoneReadingTypes(records: seq<Record>, kanjiList: seq<string>)
    returns (result: seq<Group<Member>>)
    ensures IndexOf(result, TypedAppends(records, kanjiList))
  {
    var homophones: Index<Member> := EmptyIndex();
    EmptyHolds<Member>();
    var i := 0;
    while i < |records|
      invariant 0 <= i <= |records|
      invariant Holds(homophones, TypedAppends(records[..i], kanjiList))
    {
      var kanji := records[i].literal;
      ghost var done := TypedAppends(records[..i], kanjiList);
      assert records[..i + 1][..i] == records[..i];
      assert TypedAppends(records[..i + 1], kanjiList)
          == done + if kanji in kanjiList then RecordAppends(kanji, records[i].readings) else [];
      if kanji in kanjiList {
        homophones := AddReadings(homophones, kanji, records[i].readings, done);
      } else {
        assert done + [] == done;
      }
      i := i + 1;
    }
    assert records[..|records|] == records;
    SortedItemsIndex(homophones, TypedAppends(records, kanjiList));
    result := SortedItems(homophones);
  }

  /** Each append of one kanji's readings comes from one of its on or kun readings, normalised. */
  lemma {:induction false} RecordAppendsSound(kanji: string, rs: seq<RawReading>, j: nat)
    requires j < |RecordAppends(kanji, rs)|
    ensures RecordAppends(kanji, rs)[j].1.kanji == kanji
    ensures RecordAppends(kanji, rs)[j].1.rType != Unknown
    ensures RecordAppends(kanji, rs)[j].1.rType == Kun ==> RecordAppends(kanji, rs)[j].0 != []
    ensures exists k :: (0 <= k < |rs|
      && rs[k].rType == (if RecordAppends(kanji, rs)[j].1.rType == On then JaOn else JaKun)
      && Normalise(rs[k]) == Some(RecordAppends(kanji, rs)[j].0))
  {
    var init := rs[..|rs| - 1];
    var last := ReadingAppend(kanji, rs[|rs| - 1]);
    if j < |RecordAppends(kanji, init)| {
      RecordAppendsSound(kanji, init, j);
      var k :| 0 <= k < |init|
        && init[k].rType == (if RecordAppends(kanji, init)[j].1.rType == On then JaOn else JaKun)
        && Normalise(init[k]) == Some(RecordAppends(kanji, init)[j].0);
      assert init[k] == rs[k];
    } else {
      assert RecordAppends(kanji, rs)[j] == last[j - |RecordAppends(kanji, init)|];
      assert rs[|rs| - 1].rType == (if RecordAppends(kanji, rs)[j].1.rType == On then JaOn else JaKun);
    }
  }

  /**
   * Soundness of the reading-type index: every append names a kanji of
   * `kanjiList`, is tagged on or kun, never files a kun reading under the empty
   * root, and is keyed by the normalised text of a reading of that kanji.
   */
  lemma {:induction false} TypedAppendsSound(records: seq<Record>, kanjiList: seq<string>, j: nat)
    requires j < |TypedAppends(records, kanjiList)|
    ensures TypedAppends(records, kanjiList)[j].1.kanji in kanjiList
    ensures TypedAppends(records, kanjiList)[j].1.rType != Unknown
    ensures TypedAppends(records, kanjiList)[j].1.rType == Kun ==> TypedAppends(records, kanjiList)[j].0 != []
    ensures exists i, k :: (0 <= i < |records| && 0 <= k < |records[i].readings|
      && records[i].literal == TypedAppends(records, kanjiList)[j].1.kanji
      && records[i].readings[k].rType == (if TypedAppends(records, kanjiList)[j].1.rType == On then JaOn else JaKun)
      && Normalise(records[i].readings[k]) == Some(TypedAppends(records, kanjiList)[j].0))
  {
    var ps := TypedAppends(records, kanjiList);
    var init := records[..|records| - 1];
    var rec := records[|records| - 1];
    var front := TypedAppends(init, kanjiList);
    if j < |front| {
      TypedAppendsSound(init, kanjiList, j);
      assert ps[j] == front[j];
      var i, k :| 0 <= i < |init| && 0 <= k < |init[i].readings|
        && init[i].literal == front[j].1.kanji
        && init[i].readings[k].rType == (if front[j].1.rType == On then JaOn else JaKun)
        && Normalise(init[i].readings[k]) == Some(front[j].0);
      assert init[i] == records[i];
    } else {
      assert rec.literal in kanjiList;
      assert ps[j] == RecordAppends(rec.literal, rec.readings)[j - |front|];
      RecordAppendsSound(rec.literal, rec.readings, j - |front|);
    }
  }

  /** Each on reading, and each kun reading with a non-empty root, of one kanji is appended. */
  lemma {:induction false} RecordAppendsComplete(kanji: string, rs: seq<RawReading>, k: nat)
    requires k < |rs|
    requires rs[k].rType == JaOn || (rs[k].rType == JaKun && KunRoot(rs[k].text) != [])
    ensures (Normalise(rs[k]).value, Member(kanji, if rs[k].rType == JaOn then On else Kun))
      in RecordAppends(kanji, rs)
  {
    var init := rs[..|rs| - 1];
    if k < |init| {
      RecordAppendsComplete(kanji, init, k);
      assert init[k] == rs[k];
    } else {
      assert ReadingAppend(kanji, rs[k])[0] == (Normalise(rs[k]).value, Member(kanji, if rs[k].rType == JaOn then On else Kun));
    }
  }

  /**
   * Completeness of the reading-type index: an on reading of a listed kanji is
   * always filed, a kun reading whenever its root is not empty.
   */
  lemma {:induction false} TypedAppendsComplete(records: seq<Record>, kanjiList: seq<string>, i: nat, k: nat)
    requires i < |records| && records[i].literal in kanjiList && k < |records[i].readings|
    requires records[i].readings[k].rType == JaOn
          || (records[i].readings[k].rType == JaKun && KunRoot(records[i].readings[k].text) != [])
    ensures (Normalise(records[i].readings[k]).value,
             Member(records[i].literal, if records[i].readings[k].rType == JaOn then On else Kun))
      in TypedAppends(records, kanjiList)
  {
    var init := records[..|records| - 1];
    if i < |init| {
      TypedAppendsComplete(init, kanjiList, i, k);
      assert init[i] == records[i];
    } else {
      RecordAppendsComplete(records[i].literal, records[i].readings, k);
    }
  }

  /** The appends of two runs of records are those of each, in order: no reordering, no deduplication. */
  lemma {:induction false} TypedAppendsConcat(a: seq<Record>, b: seq<Record>, kanjiList: seq<string>)
    ensures TypedAppends(a + b, kanjiList) == TypedAppends(a, kanjiList) + TypedAppends(b, kanjiList)
    decreases |b|
  {
    if b == [] {
      assert a + b == a;
    } else {
      var b' := b[..|b| - 1];
      var rec := b[|b| - 1];
      var last := if rec.literal in kanjiList then RecordAppends(rec.literal, rec.readings) else [];
      assert TypedAppends(a + b, kanjiList) == TypedAppends(a + b', kanjiList) + last by {
        assert (a + b)[..|a + b| - 1] == a + b';
        assert (a + b)[|a + b| - 1] == rec;
      }
      assert TypedAppends(b, kanjiList) == TypedAppends(b', kanjiList) + last;
      TypedAppendsConcat(a, b', kanjiList);
      assert TypedAppends(a, kanjiList) + (TypedAppends(b', kanjiList) + last)
          == (TypedAppends(a, kanjiList) + TypedAppends(b', kanjiList)) + last;
    }
  }

  /** 行 (い.く) and 生 (い.きる) are both filed under い as kun readings, in document order. */
  lemma ToyHomophoneI()
    ensures MembersOf(TypedAppends(ToyDictionary(), ["行", "生"]), "い")
         == [Member("行", Kun), Member("生", Kun)]
  {
    ToyTypedAppends();
    ToyAppendsIku();
    ToyAppendsIkiru();
    MembersOfConcat(RecordAppends("行", IkuReadings), RecordAppends("生", SeiReadings), "い");
  }

  /** With 行 and 生 listed, 日 files nothing and the other two file their readings in order. */
  lemma ToyTypedAppends()
    ensures TypedAppends(ToyDictionary(), ["行", "生"])
         == RecordAppends("行", IkuReadings) + RecordAppends("生", SeiReadings)
  {
    var d := ToyDictionary();
    var list := ["行", "生"];
    assert d == [d[0]] + [d[1]] + [d[2]];
    TypedAppendsConcat([d[0]] + [d[1]], [d[2]], list);
    TypedAppendsConcat([d[0]], [d[1]], list);
    assert TypedAppends([d[0]], list) == [] by {
      assert [d[0]][..0] == [];
      assert d[0].literal !in list;
    }
    TypedAppendsSingle(d[1], list);
    TypedAppendsSingle(d[2], list);
  }

  /** The appends of two runs of readings of one kanji are those of each, in order. */
  lemma {:induction false} RecordAppendsConcat(kanji: string, a: seq<RawReading>, b: seq<RawReading>)
    ensures RecordAppends(kanji, a + b) == RecordAppends(kanji, a) + RecordAppends(kanji, b)
    decreases |b|
  {
    if b == [] {
      assert a + b == a;
    } else {
      var b' := b[..|b| - 1];
      assert (a + b)[..|a + b| - 1] == a + b';
      assert (a + b)[|a + b| - 1] == b[|b| - 1];
      RecordAppendsConcat(kanji, a, b');
    }
  }

  /** The members one reading of `kanji` contributes under `key`. */
  lemma MembersOfOneReading(kanji: string, r: RawReading, key: string)
    ensures MembersOf(RecordAppends(kanji, [r]), key)
         == if ReadingAppend(kanji, r) != [] && ReadingAppend(kanji, r)[0].0 == key
            then [ReadingAppend(kanji, r)[0].1] else []
  {
    assert [r][..0] == [];
    var ps := ReadingAppend(kanji, r);
    assert RecordAppends(kanji, [r]) == ps;
    if ps != [] {
      assert ps[..0] == [];
    }
  }

  /** An on reading files its kanji under a key only of its own length. */
  lemma OnReadingFiles(kanji: string, r: RawReading, key: string)
    requires r.rType == JaOn && |r.text| != |key|
    ensures MembersOf(RecordAppends(kanji, [r]), key) == []
  {
    MembersOfOneReading(kanji, r, key);
  }

  /** A kun reading whose first '.' is at `p` files its kanji under the text before it and nowhere else. */
  lemma KunReadingFiles(kanji: string, r: RawReading, p: nat, key: string)
    requires r.rType == JaKun && 0 < p < |r.text| && r.text[p] == '.'
    requires forall i :: 0 <= i < p ==> r.text[i] != '.'
    ensures MembersOf(RecordAppends(kanji, [r]), key) == if r.text[..p] == key then [Member(kanji, Kun)] else []
  {
    KunRootAt(r.text, p);
    MembersOfOneReading(kanji, r, key);
  }

  /** A kun reading without okurigana files its kanji under the whole reading and nowhere else. */
  lemma KunPlainFiles(kanji: string, r: RawReading, key: string)
    requires r.rType == JaKun && r.text != [] && '.' !in r.text
    ensures MembersOf(RecordAppends(kanji, [r]), key) == if r.text == key then [Member(kanji, Kun)] else []
  {
    KunRootOfPlain(r.text);
    MembersOfOneReading(kanji, r, key);
  }

  /** The on readings of 行 file nothing under い. */
  lemma ToyIkuOnReadings()
    ensures MembersOf(RecordAppends("行", [IkuReadings[0]]), "い") == []
    ensures MembersOf(RecordAppends("行", [IkuReadings[1]]), "い") == []
    ensures MembersOf(RecordAppends("行", [IkuReadings[2]]), "い") == []
  {
    OnReadingFiles("行", IkuReadings[0], "い");
    OnReadingFiles("行", IkuReadings[1], "い");
    OnReadingFiles("行", IkuReadings[2], "い");
  }

  /** Of the kun readings of 行 only い.く files it under い. */
  lemma ToyIkuKunReadings()
    ensures MembersOf(RecordAppends("行", [IkuReadings[3]]), "い") == [Member("行", Kun)]
    ensures MembersOf(RecordAppends("行", [IkuReadings[4]]), "い") == []
    ensures MembersOf(RecordAppends("行", [IkuReadings[5]]), "い") == []
  {
    KunReadingFiles("行", IkuReadings[3], 1, "い");
    assert IkuReadings[3].text[..1] == "い";
    ToyYukuReading();
    ToyOkonauReading();
  }

  /** ゆ.く files 行 under ゆ, not under い. */
  lemma ToyYukuReading()
    ensures MembersOf(RecordAppends("行", [IkuReadings[4]]), "い") == []
  {
    KunReadingFiles("行", IkuReadings[4], 1, "い");
    assert IkuReadings[4].text[..1][0] == 'ゆ';
  }

  /** おこな.う files 行 under おこな, not under い. */
  lemma ToyOkonauReading()
    ensures MembersOf(RecordAppends("行", [IkuReadings[5]]), "い") == []
  {
    KunReadingFiles("行", IkuReadings[5], 3, "い");
    assert |IkuReadings[5].text[..3]| == 3;
  }

  /** The on readings of 生 file nothing under い. */
  lemma ToySeiOnReadings()
    ensures MembersOf(RecordAppends("生", [SeiReadings[0]]), "い") == []
    ensures MembersOf(RecordAppends("生", [SeiReadings[1]]), "い") == []
  {
    OnReadingFiles("生", SeiReadings[0], "い");
    OnReadingFiles("生", SeiReadings[1], "い");
  }

  /** Of the kun readings of 生 only い.きる files it under い. */
  lemma ToySeiKunReadings()
    ensures MembersOf(RecordAppends("生", [SeiReadings[2]]), "い") == [Member("生", Kun)]
    ensures MembersOf(RecordAppends("生", [SeiReadings[3]]), "い") == []
    ensures MembersOf(RecordAppends("生", [SeiReadings[4]]), "い") == []
  {
    assert MembersOf(RecordAppends("生", [SeiReadings[2]]), "い") == [Member("生", Kun)] by {
      KunReadingFiles("生", SeiReadings[2], 1, "い");
      assert SeiReadings[2].text[..1] == "い";
    }
    assert MembersOf(RecordAppends("生", [SeiReadings[3]]), "い") == [] by {
      KunReadingFiles("生", SeiReadings[3], 1, "い");
      assert SeiReadings[3].text[..1][0] == 'う';
    }
    KunPlainFiles("生", SeiReadings[4], "い");
  }

  /** A single record in the list contributes exactly its readings' appends. */
  lemma TypedAppendsSingle(rec: Record, kanjiList: seq<string>)
    requires rec.literal in kanjiList
    ensures TypedAppends([rec], kanjiList) == RecordAppends(rec.literal, rec.readings)
  {
    assert [rec][..0] == [];
  }

  /** When no reading of `kanji` files it under `key`, its readings together file nothing there. */
  lemma {:induction false} NoReadingFiles(kanji: string, rs: seq<RawReading>, key: string)
    requires forall j :: 0 <= j < |rs| ==> MembersOf(RecordAppends(kanji, [rs[j]]), key) == []
    ensures MembersOf(RecordAppends(kanji, rs), key) == []
    decreases |rs|
  {
    if rs != [] {
      var front := rs[..|rs| - 1];
      var last := rs[|rs| - 1];
      assert rs == front + [last];
      forall j | 0 <= j < |front|
        ensures MembersOf(RecordAppends(kanji, [front[j]]), key) == []
      {
        assert front[j] == rs[j];
      }
      NoReadingFiles(kanji, front, key);
      RecordAppendsConcat(kanji, front, [last]);
      MembersOfConcat(RecordAppends(kanji, front), RecordAppends(kanji, [last]), key);
    }
  }

  /** When exactly reading `i` of `kanji` files it under `key`, its readings together file it there once. */
  lemma OneReadingFiles(kanji: string, rs: seq<RawReading>, key: string, i: nat, m: Member)
    requires i < |rs|
    requires MembersOf(RecordAppends(kanji, [rs[i]]), key) == [m]
    requires forall j :: 0 <= j < |rs| && j != i ==> MembersOf(RecordAppends(kanji, [rs[j]]), key) == []
    ensures MembersOf(RecordAppends(kanji, rs), key) == [m]
  {
    var before, after := rs[..i], rs[i + 1..];
    assert rs == before + [rs[i]] + after;
    forall j | 0 <= j < |before|
      ensures MembersOf(RecordAppends(kanji, [before[j]]), key) == []
    {
      assert before[j] == rs[j];
    }
    forall j | 0 <= j < |after|
      ensures MembersOf(RecordAppends(kanji, [after[j]]), key) == []
    {
      assert after[j] == rs[i + 1 + j];
    }
    NoReadingFiles(kanji, before, key);
    NoReadingFiles(kanji, after, key);
    RecordAppendsConcat(kanji, before + [rs[i]], after);
    RecordAppendsConcat(kanji, before, [rs[i]]);
    MembersOfConcat(RecordAppends(kanji, before + [rs[i]]), RecordAppends(kanji, after), key);
    MembersOfConcat(RecordAppends(kanji, before), RecordAppends(kanji, [rs[i]]), key);
  }

  /** Of 行's readings only い.く files it under い. */
  lemma ToyAppendsIku()
    ensures MembersOf(RecordAppends("行", IkuReadings), "い") == [Member("行", Kun)]
  {
    ToyIkuOnReadings();
    ToyIkuKunReadings();
    forall j | 0 <= j < |IkuReadings| && j != 3
      ensures MembersOf(RecordAppends("行", [IkuReadings[j]]), "い") == []
    {
      assert j == 0 || j == 1 || j == 2 || j == 4 || j == 5;
    }
    OneReadingFiles("行", IkuReadings, "い", 3, Member("行", Kun));
  }

  /** Of 生's readings only い.きる files it under い. */
  lemma ToyAppendsIkiru()
    ensures MembersOf(RecordAppends("生", SeiReadings), "い") == [Member("生", Kun)]
  {
    ToySeiOnReadings();
    ToySeiKunReadings();
    forall j | 0 <= j < |SeiReadings| && j != 2
      ensures MembersOf(RecordAppends("生", [SeiReadings[j]]), "い") == []
    {
      assert j == 0 || j == 1 || j == 3 || j == 4;
    }
    OneReadingFiles("生", SeiReadings, "い", 2, Member("生", Kun));
  }
}
