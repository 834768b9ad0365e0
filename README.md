# zh_learn_ja: reading classification, homophone indices and frequency tiers

This project models the part of zh_learn_ja that turns kanjidic2 character records into:
- on/kun classifications of a reading;
- homophone indices (reading → kanji);
- JLPT frequency tiers;
- a character histogram;
- a check that a string holds only Chinese characters.

Each model is in Dafny. It is proved against specifications of what the code promises.

The kanjidic2 file is taken as already parsed. It is a sequence of `Record`s, each with:
- its `literal`;
- an optional `misc/freq` (as an integer);
- an optional `misc/grade`;
- its `(r_type, text)` readings in document order.

A missing file (`FileNotFoundError`) is the `None` of `Option<seq<Record>>`. pykakasi is an oracle `string -> seq<string>`, giving the `hira` field of each item it returns for a kanji.

Modules, one per concern:

- `Kana` (kana.dfy): the inline reading normalisation.
  - `ja_on` text goes through `jaconv.kata2hira`.
  - `ja_kun` text is cut at its first `.`.
- `Kanjidic` (kanjidic.dfy): the record shape and the normalised readings of a record.
- `Strings` (strings.dfy): Python's `<` on `str`, and `sorted` on a list of strings.
- `StableSort` (stable_sort.dfy): `list.sort(key=...)` on an integer key, a stable sort.
  - An order and stability lemma, and a proof that it is the only ordered, stable arrangement.
  - `reverse=True`, which stays stable, is this sort on the negated key.
- `Seqs` (seqs.dfy): sequence facts, and Python's slice `s[:n]`.
- `Homophones` (homophones.dfy): the `defaultdict(list)` both homophone indexers append to.
  - The `Holds` invariant ties the dictionary to the appends made so far.
  - The final `sorted(homophones.items())` is proved to give unique, strictly ascending readings, each with exactly the values appended under it, in append order.
- `IdentifyReadingType` (identify_reading_type.dfy), for zh_learn_ja/identify_reading_type.py:
  - `is_hiragana`;
  - `identify_reading_type` as a method with its search loops and early returns, proved equal to the function `ReadingTypeOf`;
  - `get_homophone_reading_types`, a method with its append loops.
- `GetN1Words` (get_n1_words.dfy), for zh_learn_ja/get_n1_words.py:
  - `get_joyo_kanji`;
  - `parse_kanjidic2`, including the 9999 default, the stable sort and the fallback list;
  - `jlpt_levels` and `generate_jlpt_kanji_lists`;
  - `get_homophone_kanji`, including the XML path, the `kanji_list` filter, the fallback to pykakasi and the sorted kanji lists.
- `CountCharacters` (count_characters.dfy): `count_characters` of main.py.
  - A loop fills a map and the insertion order of its keys, then the items are sorted by descending count.
- `FitterChinese` (fitter_chinese.dfy): `is_only_chinese`.

The model keeps these behaviours of the code:
- There is no nanori outcome. Only `ja_on` and `ja_kun` readings are looked at.
- Readings are not deduplicated, in an entry or in a homophone group.
- The members of `get_homophone_reading_types` are left in document order, not sorted.
- A record without a literal is not skipped; the code fails on it.
- Ties in frequency keep document order. (The sort is stable.)
- A kun reading is compared on its root only, never on its full text with okurigana (zh_learn_ja/identify_reading_type.py:54).
- The first matching reading in document order wins. A kun reading listed before an on reading with the same hiragana gives "kun" (zh_learn_ja/identify_reading_type.py:45-55).

## Model

| member | source | states |
|---|---|---|
| `Kana.KataToHiraChar` | zh_learn_ja/get_n1_words.py:54 | a katakana letter U+30A1..U+30F6 moves down by 0x60; any other character is unchanged (the assumed behaviour of `jaconv.kata2hira`) |
| `Kana.KataToHira` | zh_learn_ja/identify_reading_type.py:50 | the conversion keeps the length and converts each character on its own |
| `Kana.KataToHiraLeavesNoKatakana` | zh_learn_ja/identify_reading_type.py:154 | no convertible katakana letter is left after conversion |
| `Kana.KataToHiraIdempotent` | zh_learn_ja/get_n1_words.py:135 | converting twice is the same as converting once |
| `Kana.KunRoot` | zh_learn_ja/identify_reading_type.py:54 | `text.split(".")[0]` is a prefix of the text; it holds no `.`; it stops just before the first `.` when there is one |
| `Kana.KunRootOfInflected` | zh_learn_ja/identify_reading_type.py:53-55 | the root of `root.okurigana` is `root`, whatever the okurigana |
| `Kana.KunRootAt` | zh_learn_ja/identify_reading_type.py:53-55 | the root is the text before the first `.` |
| `Kana.KunRootOfPlain` | zh_learn_ja/get_n1_words.py:56 | a text without `.` is its own root |
| `Kana.KunRootIdempotent` | zh_learn_ja/identify_reading_type.py:157 | cutting twice is the same as cutting once |
| `Kanjidic.NormalisedReadingsAppend` | zh_learn_ja/get_n1_words.py:48-58 | readings are normalised independently and in document order: normalising a concatenation concatenates the results |
| `Kanjidic.Normalise` | zh_learn_ja/get_n1_words.py:53-57 | an on reading normalises to its hiragana, a kun reading to the text before its first '.', any other `r_type` to nothing |
| `Kanjidic.NormalisedReadingsSingle` | zh_learn_ja/get_n1_words.py:50-57 | an on reading gives its hiragana, a kun reading gives its root, and any other `r_type` gives nothing |
| `Strings.LessIrreflexive` | zh_learn_ja/get_n1_words.py:164 | Python's string `<` is irreflexive |
| `Strings.LessTransitive` | zh_learn_ja/get_n1_words.py:164 | string `<` is transitive |
| `Strings.LessTotal` | zh_learn_ja/get_n1_words.py:164 | of two different strings one is less than the other |
| `Strings.Sort` | zh_learn_ja/get_n1_words.py:164 | `sorted` on strings returns a permutation of its input |
| `Strings.SortSorted` | zh_learn_ja/get_n1_words.py:164 | `sorted` output is ordered and is a permutation |
| `Strings.SortDistinctAscending` | zh_learn_ja/identify_reading_type.py:162 | sorting distinct keys gives a strictly ascending sequence |
| `Strings.SortedUnique` | zh_learn_ja/get_n1_words.py:164 | an ordered permutation is unique, so any correct sort gives the same list |
| `StableSort.SortBy` | zh_learn_ja/get_n1_words.py:64 | `list.sort(key=...)` returns a permutation of the list |
| `StableSort.SortBySorted` | zh_learn_ja/get_n1_words.py:64 | the result is non-decreasing in the key |
| `StableSort.SortByStable` | zh_learn_ja/get_n1_words.py:64 | the elements sharing a key keep their original relative order |
| `StableSort.StableSortUnique` | zh_learn_ja/get_n1_words.py:64 | two lists that are both key-ordered and agree on each key's elements in order are equal, so the stable sort is the only one |
| `Seqs.Take` | zh_learn_ja/get_n1_words.py:77 | `s[:n]` is a prefix of length `min(n, len(s))` |
| `Seqs.DistinctPermutation` | main.py:49-51 | a permutation of a list without repeats has no repeats |
| `Homophones.AppendHolds` | zh_learn_ja/identify_reading_type.py:155 | `homophones[k].append(v)` keeps the dictionary equal to the appends made so far: each key listed once, lists in append order |
| `Homophones.EmptyHolds` | zh_learn_ja/identify_reading_type.py:141 | an empty `defaultdict(list)` corresponds to no appends |
| `Homophones.MembersOfMissing` | zh_learn_ja/get_n1_words.py:117 | a key never appended to has no members |
| `Homophones.SortedItemsIndex` | zh_learn_ja/identify_reading_type.py:162 | `sorted(homophones.items())`: readings unique and strictly ascending, exactly the keys used, each with the values appended under it in append order |
| `Homophones.MembersOfCounts` | zh_learn_ja/get_n1_words.py:142 | a value occurs in a key's group as often as it was appended under that key |
| `Homophones.MembersOfConcat` | zh_learn_ja/identify_reading_type.py:155-159 | a key's members over two runs of appends are those of each run, in order |
| `IdentifyReadingType.FirstRecord` | zh_learn_ja/identify_reading_type.py:43-44 | finds the first record with the literal, or reports that none has it |
| `IdentifyReadingType.Identify` | zh_learn_ja/identify_reading_type.py:16-78 | the loops with early returns compute `ReadingTypeOf`, which the lemmas below characterise |
| `IdentifyReadingType.EmptyInputIsNone` | zh_learn_ja/identify_reading_type.py:34-35 | an empty kanji or an empty reading gives `None`, whatever the sources hold |
| `IdentifyReadingType.IsHiragana` | zh_learn_ja/identify_reading_type.py:11-13 | a character is hiragana when it lies in U+3040..U+309F |
| `IdentifyReadingType.KataToHiraIsHiragana` | zh_learn_ja/identify_reading_type.py:11-13 | the hiragana form of a string of convertible katakana letters is all hiragana |
| `IdentifyReadingType.ShortOnReadingLooksOn` | zh_learn_ja/identify_reading_type.py:73 | the hiragana form of an on reading of one or two katakana letters passes the fallback's "on" test |
| `IdentifyReadingType.KunFullTextNeverMatches` | zh_learn_ja/identify_reading_type.py:52-55 | a kun reading with okurigana never matches its own full text: only its root is compared |
| `IdentifyReadingType.MatchOfCases` | zh_learn_ja/identify_reading_type.py:45-55 | an on reading matches when its hiragana equals the reading; a kun reading matches when its root equals it; no other type matches |
| `IdentifyReadingType.InflectedKunMatchesRoot` | zh_learn_ja/identify_reading_type.py:53-55 | `おこな.う`-style kun readings match on the root alone |
| `IdentifyReadingType.FirstMatchAt` | zh_learn_ja/identify_reading_type.py:45-55 | the first matching reading in document order decides, whatever follows it |
| `IdentifyReadingType.FirstMatchNone` | zh_learn_ja/identify_reading_type.py:45-56 | no reading decides if and only if none matches |
| `IdentifyReadingType.DictionaryFirstMatchDecides` | zh_learn_ja/identify_reading_type.py:43-55 | a found kanji whose first matching reading is an on reading gives "on"; if it is a kun reading, "kun" |
| `IdentifyReadingType.DictionaryEarlierKunWins` | zh_learn_ja/identify_reading_type.py:45-55 | a kun reading listed before an on reading with the same hiragana makes the answer "kun", although the on reading matches too |
| `IdentifyReadingType.DictionaryUnknown` | zh_learn_ja/identify_reading_type.py:56 | a found kanji gives "unknown" if and only if none of its readings matches |
| `IdentifyReadingType.MatchOfNeverUnknown` | zh_learn_ja/identify_reading_type.py:45-56 | a reading match is only ever "on" or "kun" |
| `IdentifyReadingType.DictionaryNotFound` | zh_learn_ja/identify_reading_type.py:43-57 | the dictionary path gives `None` if and only if no record has the literal |
| `IdentifyReadingType.DictionaryFirstRecordOnly` | zh_learn_ja/identify_reading_type.py:43-44 | records after the first one with the literal never change the answer |
| `IdentifyReadingType.FallbackTypeCases` | zh_learn_ja/identify_reading_type.py:69-76 | fallback: an equal candidate gives "on" if the reading is at most two hiragana characters, otherwise "kun"; no equal candidate gives `None` |
| `IdentifyReadingType.FallbackNeverUnknown` | zh_learn_ja/identify_reading_type.py:62-76 | without the dictionary the answer is never "unknown" |
| `IdentifyReadingType.MissingFileFallsBack` | zh_learn_ja/identify_reading_type.py:58-60 | a missing dictionary file on the XML path gives the transliterator path's answer |
| `IdentifyReadingType.ToyDictionaryHiOn` | zh_learn_ja/identify_reading_type.py:86-87 | in a small dictionary, 日 with にち is "on": the hiragana form of its on reading ニチ |
| `IdentifyReadingType.ToyDictionaryHiKun` | zh_learn_ja/identify_reading_type.py:86-87 | 日 with ひ is "kun"; the on readings listed before ひ do not match |
| `IdentifyReadingType.ToyDictionaryHiUnknown` | zh_learn_ja/identify_reading_type.py:56 | 日 with ぞ, which none of its readings matches, is "unknown" |
| `IdentifyReadingType.ToyDictionaryIkuOn` | zh_learn_ja/identify_reading_type.py:107-109 | 行 with こう is "on" |
| `IdentifyReadingType.ToyDictionaryIkuKun` | zh_learn_ja/identify_reading_type.py:107-109 | 行 with おこな is "kun", matched on the root of おこな.う after five readings that do not match |
| `IdentifyReadingType.ToyKunBeforeOn` | zh_learn_ja/identify_reading_type.py:45-55 | a record listing the kun reading か before the on reading カ gives "kun" for か |
| `IdentifyReadingType.ToyDictionaryMissing` | zh_learn_ja/identify_reading_type.py:57 | a kanji missing from the dictionary gives `None` |
| `IdentifyReadingType.FileReading` | zh_learn_ja/identify_reading_type.py:151-159 | filing one reading keeps the dictionary equal to the appends so far plus that reading's append: an on reading always, a kun reading when its root is non-empty |
| `IdentifyReadingType.AddReadings` | zh_learn_ja/identify_reading_type.py:150-159 | filing one kanji's readings keeps the dictionary equal to the appends so far plus that kanji's appends |
| `IdentifyReadingType.GetHomophoneReadingTypes` | zh_learn_ja/identify_reading_type.py:134-163 | the result is the index of the typed appends: readings unique and ascending, exactly the keys used, members in document order, not deduplicated |
| `IdentifyReadingType.RecordAppendsSound` | zh_learn_ja/identify_reading_type.py:150-159 | each member names its kanji and is tagged on or kun; no kun member has an empty root; its key is the normalised text of a reading of that type |
| `IdentifyReadingType.TypedAppendsSound` | zh_learn_ja/identify_reading_type.py:146-159 | each member's kanji is in `kanji_list`, and its key is the normalised text of one of that kanji's on or kun readings |
| `IdentifyReadingType.RecordAppendsComplete` | zh_learn_ja/identify_reading_type.py:153-159 | every on reading, and every kun reading with a non-empty root, produces an append |
| `IdentifyReadingType.TypedAppendsComplete` | zh_learn_ja/identify_reading_type.py:146-159 | for a kanji in the list: every on reading, and every kun reading with a non-empty root, produces a tagged member |
| `IdentifyReadingType.TypedAppendsConcat` | zh_learn_ja/identify_reading_type.py:146-149 | appends follow document order: two runs of records give the first run's appends, then the second's |
| `IdentifyReadingType.RecordAppendsConcat` | zh_learn_ja/identify_reading_type.py:150 | a kanji's readings are filed in document order |
| `IdentifyReadingType.TypedAppendsSingle` | zh_learn_ja/identify_reading_type.py:146-149 | a listed record contributes exactly its readings' appends |
| `IdentifyReadingType.MembersOfOneReading` | zh_learn_ja/identify_reading_type.py:153-159 | one reading files its kanji under `key` if and only if its normalised form is `key` (and, for kun, non-empty) |
| `IdentifyReadingType.NoReadingFiles` | zh_learn_ja/identify_reading_type.py:150-159 | if no reading of a kanji files it under a key, the kanji does not appear under that key |
| `IdentifyReadingType.OneReadingFiles` | zh_learn_ja/identify_reading_type.py:150-159 | if exactly one reading files a kanji under a key, the kanji appears once there |
| `IdentifyReadingType.OnReadingFiles` | zh_learn_ja/identify_reading_type.py:153-155 | an on reading files its kanji under no key of another length |
| `IdentifyReadingType.KunReadingFiles` | zh_learn_ja/identify_reading_type.py:156-159 | a kun reading with a '.' files its kanji under the text before the first '.' and under no other key |
| `IdentifyReadingType.KunPlainFiles` | zh_learn_ja/identify_reading_type.py:156-159 | a kun reading without '.' files its kanji under the whole reading and under no other key |
| `IdentifyReadingType.ToyIkuOnReadings` | zh_learn_ja/identify_reading_type.py:108 | the on readings of 行 in the small dictionary do not file it under い |
| `IdentifyReadingType.ToyIkuKunReadings` | zh_learn_ja/identify_reading_type.py:108 | of 行's kun readings only い.く files it under い |
| `IdentifyReadingType.ToyYukuReading` | zh_learn_ja/identify_reading_type.py:156-159 | the kun reading ゆ.く of 行 does not file it under い |
| `IdentifyReadingType.ToyOkonauReading` | zh_learn_ja/identify_reading_type.py:156-159 | the kun reading おこな.う of 行 does not file it under い |
| `IdentifyReadingType.ToySeiOnReadings` | zh_learn_ja/identify_reading_type.py:103 | the on readings of 生 do not file it under い |
| `IdentifyReadingType.ToySeiKunReadings` | zh_learn_ja/identify_reading_type.py:103 | of 生's kun readings only い.きる files it under い |
| `IdentifyReadingType.ToyAppendsIku` | zh_learn_ja/identify_reading_type.py:108 | 行 appears once under い, as a kun member |
| `IdentifyReadingType.ToyAppendsIkiru` | zh_learn_ja/identify_reading_type.py:103 | 生 appears once under い, as a kun member |
| `IdentifyReadingType.ToyTypedAppends` | zh_learn_ja/identify_reading_type.py:146-149 | with the list [行, 生], 日 appends nothing, then 行's readings and 生's readings append in document order |
| `IdentifyReadingType.ToyHomophoneI` | zh_learn_ja/identify_reading_type.py:146-162 | with the list [行, 生], い holds 行 (kun) then 生 (kun), in document order; 日 is not listed and adds nothing |
| `GetN1Words.GetJoyoKanji` | zh_learn_ja/get_n1_words.py:20-31 | the loop collects `JoyoKanji`: the literals of graded characters |
| `GetN1Words.JoyoKanjiMembers` | zh_learn_ja/get_n1_words.py:25-29 | a kanji is in the list if and only if some character with a `misc/grade` has it as literal |
| `GetN1Words.JoyoKanjiAppend` | zh_learn_ja/get_n1_words.py:25-31 | the list keeps document order |
| `GetN1Words.CollectReadings` | zh_learn_ja/get_n1_words.py:48-58 | the inner loop yields the normalised on and kun readings in document order |
| `GetN1Words.ParseKanjidic2` | zh_learn_ja/get_n1_words.py:38-70 | with the file: a permutation of the characters' entries, ordered by frequency, stable on ties. Without it: the Jōyō kanji in order, entry `i` with frequency `i` and no readings |
| `GetN1Words.FallbackRanked` | zh_learn_ja/get_n1_words.py:68-70 | the fallback list is already in frequency order |
| `GetN1Words.RankedEntries` | zh_learn_ja/get_n1_words.py:44-64 | an entry is ranked if and only if it is some character's literal, frequency (9999 when missing) and normalised readings |
| `GetN1Words.JlptKanjiLists` | zh_learn_ja/get_n1_words.py:74-83 | exactly the five levels; each is the kanji of the first `min(n, len)` ranked entries, in rank order |
| `GetN1Words.JlptLevelsNested` | zh_learn_ja/get_n1_words.py:76-82 | a level with a smaller threshold is a prefix of a level with a larger one |
| `GetN1Words.JlptLevelsAscend` | zh_learn_ja/get_n1_words.py:10-16 | N5 ⊑ N4 ⊑ N3 ⊑ N2 ⊑ N1 as prefixes |
| `GetN1Words.GenerateJlptKanjiLists` | zh_learn_ja/get_n1_words.py:74-83 | the levels are cut from `parse_kanjidic2`'s ranking |
| `GetN1Words.NonEmptyCounts` | zh_learn_ja/get_n1_words.py:139-140 | `if reading_hira:` drops every empty string and keeps every other occurrence |
| `GetN1Words.NonEmptyFrom` | zh_learn_ja/get_n1_words.py:159 | a kept reading is non-empty and comes from the input |
| `GetN1Words.CollectFiledReadings` | zh_learn_ja/get_n1_words.py:129-140 | the inner loop yields the non-empty normalised on and kun readings in document order |
| `GetN1Words.AddKanji` | zh_learn_ja/get_n1_words.py:141-142 | filing a kanji under each reading keeps the dictionary equal to the appends made |
| `GetN1Words.AddTransliterations` | zh_learn_ja/get_n1_words.py:155-160 | filing a kanji under each non-empty transliteration keeps the dictionary equal to the appends made |
| `GetN1Words.SortMembersIndex` | zh_learn_ja/get_n1_words.py:163-165 | the final comprehension: readings unique and strictly ascending, exactly the keys used, each kanji list sorted and a permutation of the kanji appended there |
| `GetN1Words.FileCharacter` | zh_learn_ja/get_n1_words.py:125-142 | filing one character keeps the dictionary equal to the appends so far plus that character's appends: none when it is skipped, else one per non-empty normalised reading |
| `GetN1Words.FileTransliteration` | zh_learn_ja/get_n1_words.py:158-160 | filing one transliteration keeps the dictionary equal to the appends so far plus one append when the reading is non-empty, none otherwise |
| `GetN1Words.FileXmlKanji` | zh_learn_ja/get_n1_words.py:119-142 | after the character loop the dictionary holds exactly the appends of every character that is not skipped |
| `GetN1Words.FileTransliteratedKanji` | zh_learn_ja/get_n1_words.py:147-160 | after the kanji loop the dictionary holds exactly the appends of each target kanji's non-empty transliterations |
| `GetN1Words.GetHomophoneKanji` | zh_learn_ja/get_n1_words.py:105-166 | the result is the sorted index of `HomophoneKanjiAppends`: the XML path when asked for and the file is present, else the transliterator path over `kanji_list["N1"]` |
| `GetN1Words.KanjiAppendsMembers` | zh_learn_ja/get_n1_words.py:141-142 | under reading `r`, a kanji is filed once per occurrence of `r` among its readings |
| `GetN1Words.XmlAppendsSingle` | zh_learn_ja/get_n1_words.py:124-142 | one character's XML appends are its own |
| `GetN1Words.XmlAppendsConcat` | zh_learn_ja/get_n1_words.py:124 | XML appends follow the characters' document order |
| `GetN1Words.XmlMembersOfCharacter` | zh_learn_ja/get_n1_words.py:127-142 | a skipped character is filed nowhere. Otherwise it is filed under a non-empty reading `r` once per occurrence of `r` among its normalised readings. It is skipped only when the list is non-empty, has "N1", and lacks it |
| `GetN1Words.XmlAppendsSound` | zh_learn_ja/get_n1_words.py:124-142 | each XML append files a non-skipped character's literal under one of its non-empty normalised readings |
| `GetN1Words.OracleAppendsSound` | zh_learn_ja/get_n1_words.py:154-160 | each transliterator append files a target kanji under one of its non-empty transliterations |
| `GetN1Words.OracleAppendsConcat` | zh_learn_ja/get_n1_words.py:154-160 | transliterator appends follow the order of the target kanji: the appends of `a + b` are those of `a` followed by those of `b` |
| `GetN1Words.OracleMembersOfKanji` | zh_learn_ja/get_n1_words.py:154-160 | on the transliterator path a target kanji is filed under a non-empty reading `r` once per occurrence of `r` among its transliterations, and nothing else is filed there |
| `GetN1Words.NoEmptyReading` | zh_learn_ja/get_n1_words.py:139 | the empty reading never becomes a key |
| `GetN1Words.MissingFileUsesKanjiList` | zh_learn_ja/get_n1_words.py:143-147 | a missing file on the XML path gives the transliterator path's appends |
| `GetN1Words.NoKanjiListNoGroups` | zh_learn_ja/get_n1_words.py:154 | on the transliterator path, no `kanji_list` gives an empty result |
| `CountCharacters.Count` | main.py:31-52 | the counting loop and the sort compute `CharacterCounts` |
| `CountCharacters.FirstOccurrencesMembers` | main.py:41-46 | the dictionary's keys are exactly the input's characters |
| `CountCharacters.FirstOccurrencesDistinct` | main.py:41-46 | each key is inserted once |
| `CountCharacters.CountsExact` | main.py:42-46 | each output pair is a character of the input with its number of occurrences, and every input character has a pair |
| `CountCharacters.CountsDistinct` | main.py:41-46 | no character appears twice in the output |
| `CountCharacters.CountsDescending` | main.py:49-51 | counts are non-increasing along the output |
| `CountCharacters.CountsStable` | main.py:41-51 | characters with equal counts stay in first-occurrence order |
| `CountCharacters.CountsTotal` | main.py:42-46 | the counts sum to `len(input_string)` |
| `CountCharacters.TotalSortBy` | main.py:49-51 | sorting by count does not change the total |
| `CountCharacters.CountsOfEmpty` | main.py:41-52 | the empty string gives the empty list |
| `FitterChinese.IsOnlyChinese` | zh_learn_ja/fitter_chinese.py:5-11 | one character of the class, then either the end of the text or an accepted rest |
| `FitterChinese.IsOnlyChineseIff` | zh_learn_ja/fitter_chinese.py:8-11 | accepted if and only if non-empty and every character is whitespace or in one of the five ranges |
| `FitterChinese.EmptyRejected` | zh_learn_ja/fitter_chinese.py:9-11 | the `+` rejects the empty string |
| `FitterChinese.KanaRejected` | zh_learn_ja/fitter_chinese.py:9 | any hiragana or katakana character (U+3040–U+30FF) makes it reject |
| `FitterChinese.ConcatAccepted` | zh_learn_ja/fitter_chinese.py:9-11 | the concatenation of two accepted strings is accepted |
| `FitterChinese.PartsAccepted` | zh_learn_ja/fitter_chinese.py:9-11 | every non-empty prefix and suffix of an accepted string is accepted |
| `FitterChinese.HalfwidthKatakanaAccepted` | zh_learn_ja/fitter_chinese.py:9 | halfwidth katakana such as U+FF71 lies in U+FF00–U+FFEF and is accepted |

## Left out

- XML parsing with `xml.etree.ElementTree` is not modelled. The parsed characters are an input sequence of records, and a missing file is `None`.
- `jaconv.kata2hira` is a foreign library. `Kana.KataToHiraChar` states an assumption: U+30A1..U+30F6 move down by 0x60 and nothing else changes. The model leaves every other character unchanged, which the library does not do for any further character its own table maps; that table is not part of this model, and the iteration marks U+30FD/U+30FE are likely such characters.
- pykakasi is an oracle function from a kanji to the `hira` strings of its conversion items. Its own behaviour is not modelled.
- `FitterChinese.IsPythonWhitespace` stands for Python's `\s`. It is assumed to be the set `str.isspace()` accepts, written out by hand; Unicode database lookups are not modelled.
- Module-level scripts, prints and JSON writes are not modelled. This covers zh_learn_ja/get_n1_words.py:34, 87-101 and 169-183, and the `test_cases` loops at zh_learn_ja/identify_reading_type.py:83-130 and 166-170. Their expected results depend on the real kanjidic2 content, so only the few cases with a hand-built dictionary are stated, as the `Toy…` lemmas.
- In main.py, `save_dict_to_csv_with_pandas`, `plot_character_counts` and the `__main__` block (pandas, matplotlib, file I/O) are left out.
- fitter_chinese_word.py, a pandas CSV filter script, is not part of this model.
- File paths are not modelled. Whether the file is present is the `source` input, so both outcomes are covered. The default `xml_file` of `get_homophone_kanji` (zh_learn_ja/get_n1_words.py:106) lacks the `/data/` that the other defaults use (zh_learn_ja/get_n1_words.py:20 and 38, zh_learn_ja/identify_reading_type.py:19 and 135). When the file sits only under `data/`, this default therefore takes the missing-file path and falls back to pykakasi.
- Crash paths are not modelled. Every record is taken to be well formed: a literal, reading texts that are not `None`, and a `misc/freq` text that parses as an integer.
- A missing file in `get_homophone_reading_types` and in `get_joyo_kanji` is not caught in the source and would raise. Those two take the records directly.
- `joyo_kanji` is computed at import time from the default file. `GetN1Words.ParseKanjidic2` takes it as a parameter, so its fallback is modelled for any list.
- A `kanji_list` of `None` is modelled as the empty map; both are falsy in the source.
- List sorts are modelled as insertion sorts (`Strings.Sort`, `StableSort.SortBy`) rather than Timsort. `Strings.SortedUnique` and `StableSort.StableSortUnique` show that the result does not depend on the algorithm.
