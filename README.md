# Voxspell word list in Dafny

This project models `voxspell_data.WordList`. That class is the word store of
the Voxspell spelling tutor. It has three jobs:

- `readFile` reads the level file once. Every line containing `%` closes one
  level and starts the next. Every other line becomes a word of the current
  level, lower-cased and trimmed.
- `getLevelList(level)` shuffles the stored list of a level in place and
  returns its first ten words.
- `getInstance` builds the single instance on first use. `getLevelCount`
  returns the number of levels read.

The model has four files:

- `wrappers.dfy`: `Option` and `Result`. `None` stands for a Java `null`, and
  `Failure` for a thrown exception.
- `java_text.dfy` (module `JavaText`): `String.toLowerCase()` on ASCII letters
  and `String.trim()`, with lemmas stating what each does character by
  character.
- `level_file.dfy` (module `LevelFile`): the level file described line by
  line, with no reading loop:
  - `DelimiterCount` counts the delimiter lines.
  - `Words` gives each word line's word and level.
  - `Group` gives the words of one level.
  - `ClosedGroups` and `AllGroups` give the map entries the reader puts.

  This file also holds the lemmas about these definitions.
- `word_list.dfy` (module `VoxspellData`) holds the imperative part.
  - The class `WordList` has the fields `spellingMap` and `levelCount`.
  - `ReadFile` is the reading loop. It is proved against the `LevelFile`
    definitions.
  - `GetLevelList` shuffles the stored list and takes its first ten words.
  - `WordListHolder` holds the static `wordList` field. Its `GetInstance` is
    the lazy singleton.

The model follows the code as written:

- A blank line (or a line of spaces) is a word line. It is stored as the
  empty word, not skipped.
- Whenever key 0 is present, it holds `null`, which is the list before the
  first `%` line. It is absent only when nothing was put: the file could not
  be opened, or reading failed before the first line.
- The group after the last `%` line is stored under key `levelCount`. Words
  therefore live under keys `1 .. levelCount`, and `levelCount` is the number
  of `%` lines. A trailing `%` line adds an empty last group.
- If a word line comes before the first `%` line, `levelList.add` is called
  on `null` and throws a `NullPointerException`. That exception escapes
  `readFile` and the constructor. A file such as `apple`, `banana`, `%`,
  `xylophone`, `yoyo` starts with word lines, so it is of this kind
  (`WordBeforeFirstDelimiterThrows`).
- An `IOException` while reading keeps every entry put so far. It leaves
  `levelCount` at 0, so the repository is not simply empty.
- `getLevelList` shuffles the stored list itself, not a copy. The next call
  starts from the shuffled order.
- A missing level, or the `null` under key 0, makes the shuffle throw a
  `NullPointerException`. A level with fewer than ten words throws an
  `IndexOutOfBoundsException`, but only after its stored list has been
  shuffled. Neither is reported as an ordinary error value.
- The level number is not checked against `levelCount`.

## Model

| member | source | states |
|---|---|---|
| JavaText.ToLowerSpec | src/voxspell_data/WordList.java:76 | `toLowerCase()` keeps the length and leaves no upper-case letter. Each upper-case letter becomes its lower-case partner; every other character is kept. |
| JavaText.TrimStartSpec | src/voxspell_data/WordList.java:76 | The front part of `trim()` returns a suffix. Every character it drops is at or below U+0020, and the first one it keeps is not. |
| JavaText.TrimEndSpec | src/voxspell_data/WordList.java:76 | The back part of `trim()` returns a prefix. Every character it drops is at or below U+0020, and the last one it keeps is not. |
| JavaText.TrimSpec | src/voxspell_data/WordList.java:76 | `trim()` returns a contiguous infix of its input. What it cuts off on either side is all whitespace or control characters, and the result starts and ends with a non-trimmable character. |
| LevelFile.NormalizeIdempotent | src/voxspell_data/WordList.java:76 | A stored word has no upper-case letter and no leading or trailing blank. Normalising it again changes nothing. |
| LevelFile.NormalizeExample | src/voxspell_data/WordList.java:76 | The line `"  CaT  "` is stored as `"cat"`. |
| LevelFile.DelimiterCount | src/voxspell_data/WordList.java:70-74 | The level counter never exceeds the number of lines read. |
| LevelFile.WordsLength | src/voxspell_data/WordList.java:70-78 | Each line is either a delimiter or exactly one word, so the number of words plus the number of delimiters equals the number of lines. Blank lines are not dropped. |
| LevelFile.WordOfLine | src/voxspell_data/WordList.java:71-77 | The word line at index `i` becomes the word at index `i - d`, where `d` is the number of `%` lines above it. Its text is the normalised line and its level is `d`. |
| LevelFile.WordLevelsBounded | src/voxspell_data/WordList.java:67-77 | Every word's level lies between 0 and the final level count. |
| LevelFile.WordLevelsPositive | src/voxspell_data/WordList.java:68-77 | In a file that opens with a `%` line, every word has level at least 1, so none is filed under the `null` key 0. A non-empty file of that kind has a count of at least 1. |
| LevelFile.WordLevelsSorted | src/voxspell_data/WordList.java:71-77 | Word levels never decrease along the file, because the counter only goes up. |
| LevelFile.GroupBeyondIsEmpty | src/voxspell_data/WordList.java:71-77 | No word has a level above the number of `%` lines read so far. |
| LevelFile.DelimiterStep | src/voxspell_data/WordList.java:71-74 | A `%` line adds no word and raises the count by one. It closes the current level, whose group is the stored entry. The new level starts empty. |
| LevelFile.WordStep | src/voxspell_data/WordList.java:75-77 | A word line keeps the count. It appends exactly one word, the normalised line at the current level, to the current group, and changes no other group and no closed entry. |
| LevelFile.ReadDelimiterLine | src/voxspell_data/WordList.java:71-74 | The `put` of a `%` line stores the open list (`null` before the first delimiter) under the current count. It then opens an empty list. |
| LevelFile.ReadWordLine | src/voxspell_data/WordList.java:75-77 | After the first `%` line the open list is never `null`. A word line appends its word to that list and leaves the map alone. |
| LevelFile.ReadEndOfInput | src/voxspell_data/WordList.java:80 | The final `put` adds the open list under the final count to the entries put by the delimiters. |
| LevelFile.GroupsPartitionWords | src/voxspell_data/WordList.java:70-80 | Reading the groups of levels `1 .. levelCount` one after another gives back every word of the file in file order. No word is lost, duplicated or moved. |
| LevelFile.SortedLevelsPartition | src/voxspell_data/WordList.java:70-80 | Words whose levels never decrease and lie in `1 .. n` are given back in order by concatenating their levels `1 .. n`. |
| LevelFile.LastGroupEmptyAfterTrailingDelimiter | src/voxspell_data/WordList.java:72-80 | In a file ending with a `%` line, the last stored group is empty, not missing. |
| LevelFile.ParseExample | src/voxspell_data/WordList.java:63-81 | Take the file `%`, `a`, `b`, `%`, `c`, where the `%` entries are any delimiter lines and `a`, `b`, `c` are any word lines. It gives count 2 and exactly the map `{0: null, 1: [a, b], 2: [c]}`, each word normalised and tagged with its level. |
| VoxspellData.ExpectedOutcome | src/voxspell_data/WordList.java:63-84 | Names the ending `readFile` must reach for each kind of file. `ReadFile` is proved to reach it. |
| VoxspellData.WordBeforeFirstDelimiterThrows | src/voxspell_data/WordList.java:68-77 | The file `apple, banana, %, xylophone, yoyo` makes `readFile` throw the `NullPointerException`. |
| VoxspellData.Shuffle | src/voxspell_data/WordList.java:96 | `Collections.shuffle` returns a permutation of the list: the same length and the same multiset of words, whatever the random draws. |
| VoxspellData.TakeFirst | src/voxspell_data/WordList.java:97-101 | The copy loop succeeds exactly when the list has at least ten words, and then returns its first ten in order. Otherwise it fails with an index error. |
| VoxspellData.WordList.Init | src/voxspell_data/WordList.java:33-34 | The object starts with an empty map and a level count of 0. |
| VoxspellData.WordList.GetLevelCount | src/voxspell_data/WordList.java:51-53 | Returns the stored level count and changes nothing. |
| VoxspellData.WordList.ReadFile | src/voxspell_data/WordList.java:61-85 | The outcome is `ExpectedOutcome(file)`. The file is loaded exactly when it opens, starts with a `%` line (or is empty) and reads to the end. The `NullPointerException` occurs exactly when a readable file starts with a word line. On a `NullPointerException` the state is unchanged. When loaded, the map gains exactly `AllGroups` (keys `0 .. n`) and the count becomes the number of `%` lines `n`. On an `IOException` the map gains exactly the entries put so far and the count is unchanged. An unopenable file adds nothing. |
| VoxspellData.WordList.GetLevelList | src/voxspell_data/WordList.java:94-102 | A missing or `null` entry fails with `NullGroup`, and nothing changes. Otherwise the entry is replaced by a permutation of itself, and no other entry or the count changes. The call succeeds exactly when the list has at least ten words, and returns the first ten of the shuffled list. Otherwise it fails with `IndexOutOfBounds`, after the shuffle. |
| VoxspellData.WordListHolder.Init | src/voxspell_data/WordList.java:26 | Before the first `getInstance`, the static `wordList` field holds its default `null`. |
| VoxspellData.WordListHolder.GetInstance | src/voxspell_data/WordList.java:44-49 | Once built, the same object is always returned and kept. The first call builds a fresh object from the file. If reading throws the `NullPointerException`, nothing is published and that exception, the only possible failure, is returned. If reading ends with an `IOException`, the object is kept with a count of 0 and the entries read so far. |

## Left out

- Opening and reading the file are left out. The fixed path, `File`, `FileReader` and `BufferedReader` are replaced by the `WordFile` value: either the file cannot be opened, or it yields its lines and then ends or fails. Line splitting and character decoding are not modelled.
- Randomness is a parameter. `rng` supplies the draws of `Collections.shuffle`, with `rng(k) % i` standing for the `k`-th `nextInt(i)`. Whether the shuffle is uniform is not stated.
- VoxspellData.Shuffle: states a permutation only, not the exact swap order. It is faithful to the JDK loop, but the contract does not pin down which permutation a given draw sequence yields.
- `toLowerCase()` is modelled on ASCII letters only. Locale-dependent and non-ASCII case mappings are not modelled.
- The `Word` class is not part of this model. A word is modelled as its text and its level, the two constructor arguments.
- A `NullPointerException` thrown by `readFile` leaves the map untouched in the model. Only the first line can throw it, before any `put`, so nothing is lost.
- The private constructor is split into `WordList.Init` (the empty map) and `WordList.ReadFile` (the call to `readFile`). `GetInstance` calls both in order.
- `getInstance` is not synchronised, and concurrent first calls are not modelled. The static field is modelled as the field of a `WordListHolder` object.
- `_levelCount` and the map keys are Java `int`s. A file with more than 2^31 − 1 delimiter lines would overflow; the model uses unbounded integers.
- The `ArrayList` objects are modelled as values. Aliasing between the stored list and the caller's view is not modelled: `getLevelList` returns a fresh list, and the shuffled list is written back to the map entry.
