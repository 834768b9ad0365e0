/**
 * zh_learn_ja/get_n1_words.py: the Jōyō kanji of kanjidic2, the frequency
 * ranking of its characters, the JLPT levels cut from that ranking, and the
 * homophone index of kanji.
 */
module GetN1Words {
  import opened Wrappers
  import opened Seqs
  import opened Strings
  import opened StableSort
  import opened Kanjidic
  import opened Homophones

  /** `jlpt_levels`: how many of the most frequent kanji each level takes. */
  const JlptLevels: map<string, nat> :=
    map["N5" := 100, "N4" := 300, "N3" := 650, "N2" := 1000, "N1" := 2000]

  /** The frequency of a character without a `misc/freq` element. */
  const MissingFreq: int := 9999

  /** An element of `kanji_data`: `{"kanji": ..., "freq": ..., "readings": [...]}`. */
  datatype Entry = Entry(kanji: string, freq: int, readings: seq<string>)

  /** The sort key `lambda x: x["freq"]`. */
  function Freq(e: Entry): int
  {
    e.freq
  }

  // ---------------------------------------------------------------- get_joyo_kanji

  /** The literals of the characters that carry a `misc/grade`, in document order. */
  function JoyoKanji(records: seq<Record>): seq<string>
  {
    if records == [] then []
    else
      var last := records[|records| - 1];
      JoyoKanji(records[..|records| - 1]) + (if last.grade.Some? then [last.literal] else [])
  }

  method GetJoyoKanji(records: seq<Record>) returns (joyo: seq<string>)
    ensures joyo == JoyoKanji(records)
  {
    joyo := [];
    var i := 0;
    while i < |records|
      invariant 0 <= i <= |records|
      invariant joyo == JoyoKanji(records[..i])
    {
      assert records[..i + 1][..i] == records[..i];
      if records[i].grade.Some? {
        joyo := joyo + [records[i].literal];
      }
      i := i + 1;
    }
    assert records[..|records|] == records;
  }

  /** A kanji is Jōyō exactly when some character with a grade has it as its literal. */
  lemma {:induction false} JoyoKanjiMembers(records: seq<Record>, k: string)
    ensures k in JoyoKanji(records)
        <==> exists i :: 0 <= i < |records| && records[i].grade.Some? && records[i].literal == k
  {
    if records != [] {
      var init := records[..|records| - 1];
      JoyoKanjiMembers(init, k);
      if k in JoyoKanji(init) {
        var i :| 0 <= i < |init| && init[i].grade.Some? && init[i].literal == k;
        assert records[i] == init[i];
      }
      if exists i :: 0 <= i < |records| && records[i].grade.Some? && records[i].literal == k {
        var i :| 0 <= i < |records| && records[i].grade.Some? && records[i].literal == k;
        if i < |init| {
          assert init[i] == records[i];
        }
      }
    }
  }

  /** The list follows document order: the Jōyō kanji of two runs of characters are those of each, in turn. */
  lemma {:induction false} JoyoKanjiAppend(a: seq<Record>, b: seq<Record>)
    ensures JoyoKanji(a + b) == JoyoKanji(a) + JoyoKanji(b)
    decreases |b|
  {
    if b == [] {
      assert a + b == a;
    } else {
      var b' := b[..|b| - 1];
      assert (a + b)[..|a + b| - 1] == a + b';
      assert (a + b)[|a + b| - 1] == b[|b| - 1];
      JoyoKanjiAppend(a, b');
    }
  }

  // ---------------------------------------------------------------- parse_kanjidic2

  /** The entry `parse_kanjidic2` builds for one character. */
  function EntryOf(r: Record): Entry
  {
    Entry(r.literal, r.freq.GetOr(MissingFreq), NormalisedReadings(r.readings))
  }

  /** `kanji_data` before the sort: one entry per character, in document order. */
  function Entries(records: seq<Record>): seq<Entry>
  {
    seq(|records|, i requires 0 <= i < |records| => EntryOf(records[i]))
  }

  /** The fallback list: entry `i` is the `i`-th Jōyō kanji, with frequency `i` and no readings. */
  function FallbackEntries(joyo: seq<string>): seq<Entry>
  {
    seq(|joyo|, i requires 0 <= i < |joyo| => Entry(joyo[i], i, []))
  }

  /** What `parse_kanjidic2` returns, for a present (`Some`) or a missing (`None`) file. */
  function ParsedData(source: Option<seq<Record>>, joyo: seq<string>): seq<Entry>
  {
    match source
    case Some(records) => SortBy(Entries(records), Freq)
    case None => FallbackEntries(joyo)
  }

  /** The inner loop of `parse_kanjidic2`: the normalised on and kun readings of one character. */
  method CollectReadings(rs: seq<RawReading>) returns (readings: seq<string>)
    ensures readings == NormalisedReadings(rs)
  {
    readings := [];
    var i := 0;
    while i < |rs|
      invariant 0 <= i <= |rs|
      invariant readings == NormalisedReadings(rs[..i])
    {
      assert rs[..i + 1][..i] == rs[..i];
      var r := rs[i];
      if r.rType == JaOn || r.rType == JaKun {
        var hira := if r.rType == JaOn then Kana.KataToHira(r.text) else Kana.KunRoot(r.text);
        readings := readings + [hira];
      }
      i := i + 1;
    }
    assert rs[..|rs|] == rs;
  }

  /**
   * `parse_kanjidic2`: with the file, every character ranked by frequency,
   * stably; without it, the Jōyō kanji in order with their index as frequency.
   */
  method ParseKanjidic2(source: Option<seq<Record>>, joyo: seq<string>) returns (data: seq<Entry>)
    ensures data == ParsedData(source, joyo)
    ensures SortedBy(data, Freq)
    ensures source.Some? ==> multiset(data) == multiset(Entries(source.value))
    ensures source.Some? ==> forall k :: WithKey(data, Freq, k) == WithKey(Entries(source.value), Freq, k)
    ensures source.None? ==>
              |data| == |joyo| && forall i :: 0 <= i < |joyo| ==> data[i] == Entry(joyo[i], i, [])
  {
    match source {
      case None =>
        data := FallbackEntries(joyo);
        FallbackRanked(joyo);
      case Some(records) =>
        var entries: seq<Entry> := [];
        var i := 0;
        while i < |records|
          invariant 0 <= i <= |records|
          invariant |entries| == i
          invariant forall j :: 0 <= j < i ==> entries[j] == EntryOf(records[j])
        {
          var readings := CollectReadings(records[i].readings);
          var freq := if records[i].freq.Some? then records[i].freq.value else MissingFreq;
          entries := entries + [Entry(records[i].literal, freq, readings)];
          i := i + 1;
        }
        assert entries == Entries(records);
        data := SortBy(entries, Freq);
        SortBySorted(entries, Freq);
        forall k ensures WithKey(data, Freq, k) == WithKey(entries, Freq, k) {
          SortByStable(entries, Freq, k);
        }
    }
  }

  /** The fallback list is already in frequency order. */
  lemma FallbackRanked(joyo: seq<string>)
    ensures SortedBy(FallbackEntries(joyo), Freq)
  {
  }

  /**
   * The ranked list holds exactly the characters' entries: its literal, its
   * frequency or 9999 when it has none, and its normalised readings.
   */
  lemma RankedEntries(records: seq<Record>, e: Entry)
    ensures e in SortBy(Entries(records), Freq)
        <==> exists j :: 0 <= j < |records| && e == Entry(records[j].literal,
                                                         if records[j].freq.Some? then records[j].freq.value else 9999,
                                                         NormalisedReadings(records[j].readings))
  {
    var entries := Entries(records);
    var ranked := SortBy(entries, Freq);
    assert multiset(ranked) == multiset(entries);
    if e in ranked {
      assert e in multiset(ranked);
      assert e in entries;
      var j :| 0 <= j < |entries| && entries[j] == e;
      assert e == EntryOf(records[j]);
    }
    if e !in ranked {
      assert e !in multiset(entries);
      forall j | 0 <= j < |records| ensures e != EntryOf(records[j]) {
        assert entries[j] == EntryOf(records[j]);
      }
    }
  }

  // ---------------------------------------------------------------- generate_jlpt_kanji_lists

  function Min(a: nat, b: nat): nat
  {
    if a <= b then a else b
  }

  /** The kanji of each entry, in order. */
  function KanjiOf(entries: seq<Entry>): seq<string>
  {
    seq(|entries|, i requires 0 <= i < |entries| => entries[i].kanji)
  }

  /** The kanji list of each level: the first `min(n, len)` kanji of the ranked list. */
  function JlptKanjiLists(data: seq<Entry>): (lists: map<string, seq<string>>)
    ensures lists.Keys == JlptLevels.Keys
    ensures forall l :: l in lists ==> |lists[l]| == Min(JlptLevels[l], |data|)
    ensures forall l, j :: l in lists && 0 <= j < |lists[l]| ==> j < |data| && lists[l][j] == data[j].kanji
  {
    map l | l in JlptLevels :: KanjiOf(Take(data, JlptLevels[l]))
  }

  /** A level with a smaller threshold is a prefix of one with a larger threshold. */
  lemma JlptLevelsNested(data: seq<Entry>, easier: string, harder: string)
    requires easier in JlptLevels && harder in JlptLevels
    requires JlptLevels[easier] <= JlptLevels[harder]
    ensures JlptKanjiLists(data)[easier] <= JlptKanjiLists(data)[harder]
  {
    var lists := JlptKanjiLists(data);
    var a, b := lists[easier], lists[harder];
    assert |a| <= |b|;
    assert a == b[..|a|];
  }

  /** From N5 to N1 every level extends the one before it. */
  lemma JlptLevelsAscend(data: seq<Entry>)
    ensures JlptKanjiLists(data)["N5"] <= JlptKanjiLists(data)["N4"]
    ensures JlptKanjiLists(data)["N4"] <= JlptKanjiLists(data)["N3"]
    ensures JlptKanjiLists(data)["N3"] <= JlptKanjiLists(data)["N2"]
    ensures JlptKanjiLists(data)["N2"] <= JlptKanjiLists(data)["N1"]
  {
    JlptLevelsNested(data, "N5", "N4");
    JlptLevelsNested(data, "N4", "N3");
    JlptLevelsNested(data, "N3", "N2");
    JlptLevelsNested(data, "N2", "N1");
  }

  /** `generate_jlpt_kanji_lists`: the levels cut from the ranking. */
  method GenerateJlptKanjiLists(source: Option<seq<Record>>, joyo: seq<string>)
    returns (lists: map<string, seq<string>>)
    ensures lists == JlptKanjiLists(ParsedData(source, joyo))
  {
    var data := ParseKanjidic2(source, joyo);
    lists := JlptKanjiLists(data);
  }

  // ---------------------------------------------------------------- get_homophone_kanji

  /** The strings of `ss` that are not empty (`if reading:`), in order. */
  function NonEmpty(ss: seq<string>): seq<string>
  {
    if ss == [] then []
    else
      var last := ss[|ss| - 1];
      NonEmpty(ss[..|ss| - 1]) + (if last != "" then [last] else [])
  }

  lemma NonEmptySnoc(ss: seq<string>, x: string)
    ensures NonEmpty(ss + [x]) == NonEmpty(ss) + (if x != "" then [x] else [])
  {
    assert (ss + [x])[..|ss|] == ss;
  }

  /** Reading `i` adds its normalised form, if any, to those of the readings before it. */
  lemma NormalisedReadingsStep(rs: seq<RawReading>, i: nat)
    requires i < |rs|
    ensures NormalisedReadings(rs[..i + 1])
         == NormalisedReadings(rs[..i]) + (if Normalise(rs[i]).Some? then [Normalise(rs[i]).value] else [])
  {
    assert rs[..i + 1][..i] == rs[..i];
  }

  /** `NonEmpty` drops every empty string and keeps every other occurrence. */
  lemma {:induction false} NonEmptyCounts(ss: seq<string>, r: string)
    ensures multiset(NonEmpty(ss))[r] == if r == "" then 0 else multiset(ss)[r]
  {
    if ss != [] {
      var init, last := ss[..|ss| - 1], ss[|ss| - 1];
      NonEmptyCounts(init, r);
      assert ss == init + [last];
      var kept := if last != "" then [last] else [];
      assert NonEmpty(ss) == NonEmpty(init) + kept;
      assert multiset(NonEmpty(ss)) == multiset(NonEmpty(init)) + multiset(kept);
      assert multiset(ss) == multiset(init) + multiset{last};
    }
  }

  /**
   * The XML path's test on `kanji_list`: a character is skipped only when
   * `kanji_list` is non-empty, has an `"N1"` list, and that list lacks it.
   */
  predicate Skipped(kanjiList: map<string, seq<string>>, kanji: string)
  {
    |kanjiList| > 0 && "N1" in kanjiList && kanji !in kanjiList["N1"]
  }

  /** The appends that file `kanji` under each of `readings` in turn. */
  function KanjiAppends(kanji: string, readings: seq<string>): seq<(string, string)>
  {
    seq(|readings|, i requires 0 <= i < |readings| => (readings[i], kanji))
  }

  /** The appends of the XML path for one character: none when skipped, else one per non-empty normalised reading. */
  function CharacterAppends(rec: Record, kanjiList: map<string, seq<string>>): seq<(string, string)>
  {
    if Skipped(kanjiList, rec.literal) then []
    else KanjiAppends(rec.literal, NonEmpty(NormalisedReadings(rec.readings)))
  }

  /** The appends of the XML path over the characters `records`. */
  function XmlAppends(records: seq<Record>, kanjiList: map<string, seq<string>>): seq<(string, string)>
  {
    if records == [] then []
    else XmlAppends(records[..|records| - 1], kanjiList) + CharacterAppends(records[|records| - 1], kanjiList)
  }

  /** The kanji the transliterator path visits: the `"N1"` list of a non-empty `kanji_list`, otherwise none. */
  function TargetKanji(kanjiList: map<string, seq<string>>): seq<string>
  {
    if |kanjiList| > 0 && "N1" in kanjiList then kanjiList["N1"] else []
  }

  /** The appends of the transliterator path; `oracle(k)` is the `hira` of each item pykakasi gives for `k`. */
  function OracleAppends(targets: seq<string>, oracle: string -> seq<string>): seq<(string, string)>
  {
    if targets == [] then []
    else
      var last := targets[|targets| - 1];
      OracleAppends(targets[..|targets| - 1], oracle) + KanjiAppends(last, NonEmpty(oracle(last)))
  }

  /**
   * All appends of `get_homophone_kanji`. The XML path runs when `use_xml`
   * is set and the file is there (`Some`); a missing file turns it off.
   * A `kanji_list` of `None` is the empty map.
   */
  function HomophoneKanjiAppends(kanjiList: map<string, seq<string>>, source: Option<seq<Record>>,
                                 useXml: bool, oracle: string -> seq<string>): seq<(string, string)>
  {
    if useXml && source.Some? then XmlAppends(source.value, kanjiList)
    else OracleAppends(TargetKanji(kanjiList), oracle)
  }

  /** The output groups: each reading with its kanji sorted. */
  function SortMembers(groups: seq<Group<string>>): seq<Group<string>>
  {
    seq(|groups|, i requires 0 <= i < |groups| => Group(groups[i].reading, Sort(groups[i].members)))
  }

  /**
   * `groups` is the homophone index of kanji for `appends`: readings unique
   * and strictly ascending, exactly the readings used, and for each reading
   * the kanji appended under it, each as often as appended, in sorted order.
   */
  ghost predicate SortedIndexOf(groups: seq<Group<string>>, appends: seq<(string, string)>)
  {
    && StrictlyAscending(Readings(groups))
    && (forall k :: k in Readings(groups) <==> HasKey(appends, k))
    && (forall i :: 0 <= i < |groups| ==>
          && Sorted(groups[i].members)
          && multiset(groups[i].members) == multiset(MembersOf(appends, groups[i].reading)))
  }

  lemma SortMembersIndex(d: Index<string>, appends: seq<(string, string)>)
    requires Holds(d, appends)
    ensures SortedIndexOf(SortMembers(SortedItems(d)), appends)
  {
    var groups := SortedItems(d);
    SortedItemsIndex(d, appends);
    var result := SortMembers(groups);
    assert Readings(result) == Readings(groups);
    forall i | 0 <= i < |result|
      ensures Sorted(result[i].members)
      ensures multiset(result[i].members) == multiset(MembersOf(appends, result[i].reading))
    {
      SortSorted(groups[i].members);
    }
  }

  /** The XML path's inner loop: the non-empty normalised readings of one character. */
  method CollectFiledReadings(rs: seq<RawReading>) returns (readings: seq<string>)
    ensures readings == NonEmpty(NormalisedReadings(rs))
  {
    readings := [];
    var i := 0;
    while i < |rs|
      invariant 0 <= i <= |rs|
      invariant readings == NonEmpty(NormalisedReadings(rs[..i]))
    {
      var r := rs[i];
      NormalisedReadingsStep(rs, i);
      if r.rType == JaOn || r.rType == JaKun {
        var hira := if r.rType == JaOn then Kana.KataToHira(r.text) else Kana.KunRoot(r.text);
        assert Normalise(r) == Some(hira);
        NonEmptySnoc(NormalisedReadings(rs[..i]), hira);
        if hira != "" {
          readings := readings + [hira];
        }
      } else {
        assert Normalise(r) == None;
        assert NormalisedReadings(rs[..i]) + [] == NormalisedReadings(rs[..i]);
      }
      i := i + 1;
    }
    assert rs[..|rs|] == rs;
  }

  /** File `kanji` under each of `readings` in turn. */
  method AddKanji(homophones: Index<string>, kanji: string, readings: seq<string>,
                  ghost before: seq<(string, string)>)
    returns (after: Index<string>)
    requires Holds(homophones, before)
    ensures Holds(after, before + KanjiAppends(kanji, readings))
  {
    after := homophones;
    var i := 0;
    assert before + KanjiAppends(kanji, readings[..0]) == before;
    while i < |readings|
      invariant 0 <= i <= |readings|
      invariant Holds(after, before + KanjiAppends(kanji, readings[..i]))
    {
      ghost var done := before + KanjiAppends(kanji, readings[..i]);
      AppendHolds(after, done, readings[i], kanji);
      assert done + [(readings[i], kanji)] == before + KanjiAppends(kanji, readings[..i + 1]) by {
        assert readings[..i + 1] == readings[..i] + [readings[i]];
        KanjiAppendsConcat(kanji, readings[..i], [readings[i]]);
        assert KanjiAppends(kanji, [readings[i]]) == [(readings[i], kanji)];
      }
      after := Append(after, readings[i], kanji);
      i := i + 1;
    }
    assert readings[..|readings|] == readings;
  }

  /** The body of the transliteration loop: file `kanji` under one reading unless it is empty. */
  method FileTransliteration(homophones: Index<string>, kanji: string, item: string,
                             ghost done: seq<(string, string)>)
    returns (after: Index<string>)
    requires Holds(homophones, done)
    ensures Holds(after, done + KanjiAppends(kanji, NonEmpty([item])))
  {
    NonEmptySnoc([], item);
    assert [] + [item] == [item];
    if item != "" {
      AppendHolds(homophones, done, item, kanji);
      assert KanjiAppends(kanji, [item]) == [(item, kanji)];
      after := Append(homophones, item, kanji);
    } else {
      assert done + [] == done;
      after := homophones;
    }
  }

  /** Filing two runs of readings is filing the first run, then the second. */
  lemma KanjiAppendsConcat(kanji: string, a: seq<string>, b: seq<string>)
    ensures KanjiAppends(kanji, a + b) == KanjiAppends(kanji, a) + KanjiAppends(kanji, b)
  {
    var l, r := KanjiAppends(kanji, a + b), KanjiAppends(kanji, a) + KanjiAppends(kanji, b);
    assert |l| == |r|;
    forall j | 0 <= j < |l| ensures l[j] == r[j] {
      if j < |a| {
        assert (a + b)[j] == a[j];
      } else {
        assert (a + b)[j] == b[j - |a|];
      }
    }
  }

  /** The appends for the items up to `i` are those up to `i - 1` and then those of item `i`. */
  lemma KanjiAppendsStep(kanji: string, items: seq<string>, i: nat, before: seq<(string, string)>)
    requires i < |items|
    ensures before + KanjiAppends(kanji, NonEmpty(items[..i + 1]))
         == (before + KanjiAppends(kanji, NonEmpty(items[..i]))) + KanjiAppends(kanji, NonEmpty([items[i]]))
  {
    var x := items[i];
    var kept := if x != "" then [x] else [];
    assert items[..i + 1] == items[..i] + [x];
    NonEmptySnoc(items[..i], x);
    assert NonEmpty([x]) == kept by {
      NonEmptySnoc([], x);
      assert [] + [x] == [x];
    }
    var pre := NonEmpty(items[..i]);
    assert NonEmpty(items[..i + 1]) == pre + kept;
    KanjiAppendsConcat(kanji, pre, kept);
    var p, q := KanjiAppends(kanji, pre), KanjiAppends(kanji, kept);
    assert before + (p + q) == (before + p) + q;
  }

  /** The loop over the readings the transliterator gives for `kanji`: file it under each non-empty one. */
  method AddTransliterations(homophones: Index<string>, kanji: string, items: seq<string>,
                             ghost before: seq<(string, string)>)
    returns (after: Index<string>)
    requires Holds(homophones, before)
    ensures Holds(after, before + KanjiAppends(kanji, NonEmpty(items)))
  {
    after := homophones;
    var i := 0;
    assert before + KanjiAppends(kanji, NonEmpty(items[..0])) == before;
    while i < |items|
      invariant 0 <= i <= |items|
      invariant Holds(after, before + KanjiAppends(kanji, NonEmpty(items[..i])))
    {
      KanjiAppendsStep(kanji, items, i, before);
      after := FileTransliteration(after, kanji, items[i], before + KanjiAppends(kanji, NonEmpty(items[..i])));
      i := i + 1;
    }
    assert items[..|items|] == items;
  }


  /** The body of the character loop of `get_homophone_kanji`: file one character unless it is skipped. */
  method FileCharacter(homophones: Index<string>, rec: Record, kanjiList: map<string, seq<string>>,
                       ghost done: seq<(string, string)>)
    returns (after: Index<string>)
    requires Holds(homophones, done)
    ensures Holds(after, done + CharacterAppends(rec, kanjiList))
  {
    if !Skipped(kanjiList, rec.literal) {
      var readings := CollectFiledReadings(rec.readings);
      after := AddKanji(homophones, rec.literal, readings, done);
    } else {
      assert done + [] == done;
      after := homophones;
    }
  }

  /** The XML path of `get_homophone_kanji`: file every character that is not skipped. */
  method FileXmlKanji(records: seq<Record>, kanjiList: map<string, seq<string>>)
    returns (homophones: Index<string>)
    ensures Holds(homophones, XmlAppends(records, kanjiList))
  {
    homophones := EmptyIndex();
    EmptyHolds<string>();
    var i := 0;
    assert records[..0] == [];
    while i < |records|
      invariant 0 <= i <= |records|
      invariant Holds(homophones, XmlAppends(records[..i], kanjiList))
    {
      assert records[..i + 1][..i] == records[..i];
      homophones := FileCharacter(homophones, records[i], kanjiList, XmlAppends(records[..i], kanjiList));
      i := i + 1;
    }
    assert records[..|records|] == records;
  }

  /** The transliterator path of `get_homophone_kanji`: file every target kanji under its readings. */
  method FileTransliteratedKanji(targets: seq<string>, oracle: string -> seq<string>)
    returns (homophones: Index<string>)
    ensures Holds(homophones, OracleAppends(targets, oracle))
  {
    homophones := EmptyIndex();
    ghost var appends: seq<(string, string)> := [];
    EmptyHolds<string>();
    var i := 0;
    while i < |targets|
      invariant 0 <= i <= |targets|
      invariant appends == OracleAppends(targets[..i], oracle)
      invariant Holds(homophones, appends)
    {
      assert targets[..i + 1][..i] == targets[..i];
      homophones := AddTransliterations(homophones, targets[i], oracle(targets[i]), appends);
      appends := appends + KanjiAppends(targets[i], NonEmpty(oracle(targets[i])));
      i := i + 1;
    }
    assert targets[..|targets|] == targets;
  }

  /** `get_homophone_kanji`. */
  method GetHomophoneKanji(kanjiList: map<string, seq<string>>, source: Option<seq<Record>>,
                           useXml: bool, oracle: string -> seq<string>)
    returns (result: seq<Group<string>>)
    ensures SortedIndexOf(result, HomophoneKanjiAppends(kanjiList, source, useXml, oracle))
  {
    var homophones: Index<string> := EmptyIndex();
    var xml := useXml;
    if xml {
      match source {
        case Some(records) =>
          homophones := FileXmlKanji(records, kanjiList);
        case None =>
          // FileNotFoundError: fall back to kanji_list
          xml := false;
      }
    }
    if !xml {
      homophones := FileTransliteratedKanji(TargetKanji(kanjiList), oracle);
    }
    SortMembersIndex(homophones, HomophoneKanjiAppends(kanjiList, source, useXml, oracle));
    result := SortMembers(SortedItems(homophones));
  }

  // ---------------------------------------------------------------- properties of the appends

  /** Under a reading `r`, a kanji is filed once per occurrence of `r` among its readings. */
  lemma {:induction false} KanjiAppendsMembers(kanji: string, readings: seq<string>, r: string)
    ensures |MembersOf(KanjiAppends(kanji, readings), r)| == multiset(readings)[r]
    ensures forall m :: m in MembersOf(KanjiAppends(kanji, readings), r) ==> m == kanji
    decreases |readings|
  {
    if readings != [] {
      var init := readings[..|readings| - 1];
      var appends := KanjiAppends(kanji, readings);
      assert appends[..|appends| - 1] == KanjiAppends(kanji, init);
      KanjiAppendsMembers(kanji, init, r);
      assert readings == init + [readings[|readings| - 1]];
    }
  }

  /** The XML appends of a single character are that character's. */
  lemma XmlAppendsSingle(rec: Record, kanjiList: map<string, seq<string>>)
    ensures XmlAppends([rec], kanjiList) == CharacterAppends(rec, kanjiList)
  {
    assert [rec][..0] == [];
  }

  /** The XML appends follow the characters' document order. */
  lemma {:induction false} XmlAppendsConcat(a: seq<Record>, b: seq<Record>, kanjiList: map<string, seq<string>>)
    ensures XmlAppends(a + b, kanjiList) == XmlAppends(a, kanjiList) + XmlAppends(b, kanjiList)
    decreases |b|
  {
    if b == [] {
      assert a + b == a;
    } else {
      var b' := b[..|b| - 1];
      var last := CharacterAppends(b[|b| - 1], kanjiList);
      assert XmlAppends(a + b, kanjiList) == XmlAppends(a + b', kanjiList) + last by {
        assert (a + b)[..|a + b| - 1] == a + b';
        assert (a + b)[|a + b| - 1] == b[|b| - 1];
      }
      assert XmlAppends(b, kanjiList) == XmlAppends(b', kanjiList) + last;
      XmlAppendsConcat(a, b', kanjiList);
      assert XmlAppends(a, kanjiList) + (XmlAppends(b', kanjiList) + last) == (XmlAppends(a, kanjiList) + XmlAppends(b', kanjiList)) + last;
    }
  }

  /**
   * On the XML path a character that is not skipped is filed under a
   * non-empty reading `r` once per occurrence of `r` among its normalised
   * readings; a skipped one is filed nowhere.
   */
  lemma XmlMembersOfCharacter(rec: Record, kanjiList: map<string, seq<string>>, r: string)
    requires r != ""
    ensures |MembersOf(XmlAppends([rec], kanjiList), r)|
         == if Skipped(kanjiList, rec.literal) then 0 else multiset(NormalisedReadings(rec.readings))[r]
    ensures forall m :: m in MembersOf(XmlAppends([rec], kanjiList), r) ==> m == rec.literal
  {
    XmlAppendsSingle(rec, kanjiList);
    if !Skipped(kanjiList, rec.literal) {
      var readings := NonEmpty(NormalisedReadings(rec.readings));
      KanjiAppendsMembers(rec.literal, readings, r);
      NonEmptyCounts(NormalisedReadings(rec.readings), r);
    }
  }

  /** A filtered reading is never empty, and is one of the readings it was taken from. */
  lemma {:induction false} NonEmptyFrom(ss: seq<string>, r: string)
    ensures r in NonEmpty(ss) ==> r != "" && r in ss
  {
    NonEmptyCounts(ss, r);
    assert r in NonEmpty(ss) ==> multiset(NonEmpty(ss))[r] > 0;
  }

  /**
   * Every append of the XML path files a non-skipped character's literal
   * under one of its non-empty normalised readings.
   */
  lemma {:induction false} XmlAppendsSound(records: seq<Record>, kanjiList: map<string, seq<string>>, j: int)
    requires 0 <= j < |XmlAppends(records, kanjiList)|
    ensures XmlAppends(records, kanjiList)[j].0 != ""
    ensures exists i :: (0 <= i < |records| && !Skipped(kanjiList, records[i].literal)
                         && records[i].literal == XmlAppends(records, kanjiList)[j].1
                         && XmlAppends(records, kanjiList)[j].0 in NormalisedReadings(records[i].readings))
    decreases |records|
  {
    var init := records[..|records| - 1];
    var last := records[|records| - 1];
    var appends := XmlAppends(records, kanjiList);
    if j < |XmlAppends(init, kanjiList)| {
      XmlAppendsSound(init, kanjiList, j);
      var i :| (0 <= i < |init| && !Skipped(kanjiList, init[i].literal)
                && init[i].literal == XmlAppends(init, kanjiList)[j].1
                && XmlAppends(init, kanjiList)[j].0 in NormalisedReadings(init[i].readings));
      assert init[i] == records[i];
    } else {
      var n := |XmlAppends(init, kanjiList)|;
      var readings := NonEmpty(NormalisedReadings(last.readings));
      assert appends[j] == CharacterAppends(last, kanjiList)[j - n];
      assert !Skipped(kanjiList, last.literal);
      assert appends[j] == KanjiAppends(last.literal, readings)[j - n];
      NonEmptyFrom(NormalisedReadings(last.readings), appends[j].0);
      assert records[|records| - 1] == last;
    }
  }

  /** Every append of the transliterator path files a target kanji under one of its non-empty transliterations. */
  lemma {:induction false} OracleAppendsSound(targets: seq<string>, oracle: string -> seq<string>, j: int)
    requires 0 <= j < |OracleAppends(targets, oracle)|
    ensures OracleAppends(targets, oracle)[j].0 != ""
    ensures OracleAppends(targets, oracle)[j].1 in targets
    ensures OracleAppends(targets, oracle)[j].0 in oracle(OracleAppends(targets, oracle)[j].1)
    decreases |targets|
  {
    var init := targets[..|targets| - 1];
    var last := targets[|targets| - 1];
    var appends := OracleAppends(targets, oracle);
    if j < |OracleAppends(init, oracle)| {
      OracleAppendsSound(init, oracle, j);
      assert OracleAppends(init, oracle)[j] == appends[j];
    } else {
      var n := |OracleAppends(init, oracle)|;
      assert appends[j] == KanjiAppends(last, NonEmpty(oracle(last)))[j - n];
      NonEmptyFrom(oracle(last), appends[j].0);
    }
  }

  /** The transliterator appends follow the target kanji's order. */
  lemma {:induction false} OracleAppendsConcat(a: seq<string>, b: seq<string>, oracle: string -> seq<string>)
    ensures OracleAppends(a + b, oracle) == OracleAppends(a, oracle) + OracleAppends(b, oracle)
    decreases |b|
  {
    if b == [] {
      assert a + b == a;
    } else {
      var b' := b[..|b| - 1];
      var last := KanjiAppends(b[|b| - 1], NonEmpty(oracle(b[|b| - 1])));
      assert OracleAppends(a + b, oracle) == OracleAppends(a + b', oracle) + last by {
        assert (a + b)[..|a + b| - 1] == a + b';
        assert (a + b)[|a + b| - 1] == b[|b| - 1];
      }
      assert OracleAppends(b, oracle) == OracleAppends(b', oracle) + last;
      OracleAppendsConcat(a, b', oracle);
      assert OracleAppends(a, oracle) + (OracleAppends(b', oracle) + last) == (OracleAppends(a, oracle) + OracleAppends(b', oracle)) + last;
    }
  }

  /**
   * On the transliterator path a target kanji `t` is filed under a non-empty
   * reading `r` once per occurrence of `r` among its transliterations.
   */
  lemma OracleMembersOfKanji(t: string, oracle: string -> seq<string>, r: string)
    requires r != ""
    ensures |MembersOf(OracleAppends([t], oracle), r)| == multiset(oracle(t))[r]
    ensures forall m :: m in MembersOf(OracleAppends([t], oracle), r) ==> m == t
  {
    assert [t][..0] == [];
    assert OracleAppends([t], oracle) == KanjiAppends(t, NonEmpty(oracle(t)));
    KanjiAppendsMembers(t, NonEmpty(oracle(t)), r);
    NonEmptyCounts(oracle(t), r);
  }

  /** No group of `get_homophone_kanji` has the empty reading. */
  lemma NoEmptyReading(kanjiList: map<string, seq<string>>, source: Option<seq<Record>>,
                       useXml: bool, oracle: string -> seq<string>, groups: seq<Group<string>>)
    requires SortedIndexOf(groups, HomophoneKanjiAppends(kanjiList, source, useXml, oracle))
    ensures forall i :: 0 <= i < |groups| ==> groups[i].reading != ""
  {
    var appends := HomophoneKanjiAppends(kanjiList, source, useXml, oracle);
    forall i | 0 <= i < |groups| ensures groups[i].reading != "" {
      assert groups[i].reading in Readings(groups);
      var j :| 0 <= j < |appends| && appends[j].0 == groups[i].reading;
      if useXml && source.Some? {
        XmlAppendsSound(source.value, kanjiList, j);
      } else {
        OracleAppendsSound(TargetKanji(kanjiList), oracle, j);
      }
    }
  }

  /** A missing file on the XML path gives the transliterator path's result. */
  lemma MissingFileUsesKanjiList(kanjiList: map<string, seq<string>>, oracle: string -> seq<string>)
    ensures HomophoneKanjiAppends(kanjiList, None, true, oracle)
         == HomophoneKanjiAppends(kanjiList, None, false, oracle)
  {
  }

  /** Without a `kanji_list`, the transliterator path gives the empty list. */
  lemma NoKanjiListNoGroups(source: Option<seq<Record>>, useXml: bool, oracle: string -> seq<string>,
                            groups: seq<Group<string>>)
    requires !(useXml && source.Some?)
    requires SortedIndexOf(groups, HomophoneKanjiAppends(map[], source, useXml, oracle))
    ensures groups == []
  {
    assert HomophoneKanjiAppends(map[], source, useXml, oracle) == [];
    NoMembersEmpty(Readings(groups));
  }
}
