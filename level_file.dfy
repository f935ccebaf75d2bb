/**
 * The level file read by `WordList.readFile`, described line by line rather
 * than by the loop that reads it: which lines are delimiters, which words
 * they produce, which level each word gets, and which group ends up stored
 * under which key. The class in word_list.dfy is proved against these
 * definitions.
 */
module LevelFile {
  import opened Wrappers
  import opened JavaText

  /** A `Word` keeps only what it is built from: its normalised text and its level. */
  datatype Word = Word(text: string, level: int)

  /** A line containing `%` ends one level and starts the next. */
  predicate IsDelimiter(line: string) { '%' in line }

  /** A word line is stored as `line.toLowerCase().trim()`. */
  function Normalize(line: string): string
  {
    Trim(ToLower(line))
  }

  /** The number of delimiter lines in `lines`. */
  function DelimiterCount(lines: seq<string>): (n: nat)
    ensures n <= |lines|
  {
    if lines == [] then 0
    else DelimiterCount(lines[..|lines| - 1]) + (if IsDelimiter(lines[|lines| - 1]) then 1 else 0)
  }

  /**
   * Every word line of `lines`, in file order, as a `Word` whose level is the
   * number of delimiter lines above it. Blank lines are word lines too.
   */
  function Words(lines: seq<string>): seq<Word>
  {
    if lines == [] then []
    else
      var above := lines[..|lines| - 1];
      var line := lines[|lines| - 1];
      Words(above) + (if IsDelimiter(line) then [] else [Word(Normalize(line), DelimiterCount(above))])
  }

  /** The words of `ws` whose level is `k`, in their order in `ws`. */
  function OfLevel(ws: seq<Word>, k: int): seq<Word>
  {
    if ws == [] then []
    else OfLevel(ws[..|ws| - 1], k) + (if ws[|ws| - 1].level == k then [ws[|ws| - 1]] else [])
  }

  /** The words between the `k`-th delimiter line and the next one (or the end). */
  function Group(lines: seq<string>, k: int): seq<Word>
  {
    OfLevel(Words(lines), k)
  }

  /**
   * A file whose first line is a word line makes `readFile` add to a list
   * that is still `null`.
   */
  predicate StartsWithWord(lines: seq<string>)
  {
    |lines| > 0 && !IsDelimiter(lines[0])
  }

  /**
   * What `readFile` puts under key `k`, given the words `ws` of the file: the
   * open list at the moment level `k` is closed. Level 0 is closed while that
   * list is still `null`.
   */
  function StoredGroup(ws: seq<Word>, k: int): Option<seq<Word>>
  {
    if k == 0 then None else Some(OfLevel(ws, k))
  }

  /** The stored groups of levels `0 .. n-1`. */
  function GroupMap(ws: seq<Word>, n: int): map<int, Option<seq<Word>>>
  {
    map k | 0 <= k < n :: StoredGroup(ws, k)
  }

  /** The entries put by the delimiter lines alone (keys `0 .. n-1`). */
  function ClosedGroups(lines: seq<string>): map<int, Option<seq<Word>>>
  {
    GroupMap(Words(lines), DelimiterCount(lines))
  }

  /** The entries after the final put as well (keys `0 .. n`). */
  function AllGroups(lines: seq<string>): map<int, Option<seq<Word>>>
  {
    GroupMap(Words(lines), DelimiterCount(lines) + 1)
  }

  /** The words of levels `1 .. m` of `ws`, one level after the other. */
  function LevelsUpTo(ws: seq<Word>, m: nat): seq<Word>
  {
    if m == 0 then [] else LevelsUpTo(ws, m - 1) + OfLevel(ws, m)
  }

  // ---------------------------------------------------------------------
  // Reading one more line

  lemma OfLevelOfAbsent(ws: seq<Word>, k: int)
    requires forall j :: 0 <= j < |ws| ==> ws[j].level != k
    ensures OfLevel(ws, k) == []
  {
    if ws != [] {
      OfLevelOfAbsent(ws[..|ws| - 1], k);
    }
  }

  /** Every word of a file carries a level between 0 and the number of delimiters. */
  lemma {:induction false} WordLevelsBounded(lines: seq<string>)
    ensures forall j :: 0 <= j < |Words(lines)| ==> 0 <= Words(lines)[j].level <= DelimiterCount(lines)
  {
    if lines != [] {
      WordLevelsBounded(lines[..|lines| - 1]);
    }
  }

  /** A file that opens with a delimiter line has no word of level 0. */
  lemma {:induction false} WordLevelsPositive(lines: seq<string>)
    requires !StartsWithWord(lines)
    ensures forall j :: 0 <= j < |Words(lines)| ==> Words(lines)[j].level >= 1
    ensures |lines| > 0 ==> DelimiterCount(lines) >= 1
  {
    if |lines| > 1 {
      var above := lines[..|lines| - 1];
      assert above[0] == lines[0];
      WordLevelsPositive(above);
    } else if |lines| == 1 {
      assert lines[..0] == [];
    }
  }

  /** No word has a level above the number of delimiters read so far. */
  lemma GroupBeyondIsEmpty(lines: seq<string>, k: int)
    requires k > DelimiterCount(lines)
    ensures Group(lines, k) == []
  {
    WordLevelsBounded(lines);
    OfLevelOfAbsent(Words(lines), k);
  }

  lemma WordsAppend(above: seq<string>, line: string)
    ensures DelimiterCount(above + [line]) == DelimiterCount(above) + (if IsDelimiter(line) then 1 else 0)
    ensures Words(above + [line])
            == Words(above) + (if IsDelimiter(line) then [] else [Word(Normalize(line), DelimiterCount(above))])
  {
    assert (above + [line])[..|above|] == above;
  }

  lemma OfLevelSnoc(ws: seq<Word>, w: Word, k: int)
    ensures OfLevel(ws + [w], k) == OfLevel(ws, k) + (if w.level == k then [w] else [])
  {
    assert (ws + [w])[..|ws|] == ws;
    assert (ws + [w])[|ws|] == w;
  }

  /** Word lists that agree on levels `1 .. n-1` give the same stored groups there. */
  lemma GroupMapSame(ws: seq<Word>, other: seq<Word>, n: int)
    requires forall k :: 1 <= k < n ==> OfLevel(ws, k) == OfLevel(other, k)
    ensures GroupMap(ws, n) == GroupMap(other, n)
  {
    forall k | 0 <= k < n ensures StoredGroup(ws, k) == StoredGroup(other, k) {
    }
  }

  /** One more level adds the entry for that level and changes no other. */
  lemma GroupMapGrow(ws: seq<Word>, n: nat)
    ensures GroupMap(ws, n + 1) == GroupMap(ws, n)[n := StoredGroup(ws, n)]
  {
  }

  /**
   * Reading a delimiter line closes the current level: its group is the one
   * stored under the current count, and the level it opens is still empty.
   */
  lemma DelimiterStep(above: seq<string>, line: string)
    requires IsDelimiter(line)
    ensures DelimiterCount(above + [line]) == DelimiterCount(above) + 1
    ensures Words(above + [line]) == Words(above)
    ensures ClosedGroups(above + [line])
            == ClosedGroups(above)[DelimiterCount(above) := StoredGroup(Words(above), DelimiterCount(above))]
    ensures Group(above + [line], DelimiterCount(above) + 1) == []
  {
    WordsAppend(above, line);
    GroupBeyondIsEmpty(above, DelimiterCount(above) + 1);
    GroupMapGrow(Words(above), DelimiterCount(above));
  }

  /**
   * Reading a word line appends one word to the group of the current level
   * and to no other group; the closed groups stay as they are.
   */
  lemma WordStep(above: seq<string>, line: string)
    requires !IsDelimiter(line)
    ensures DelimiterCount(above + [line]) == DelimiterCount(above)
    ensures Group(above + [line], DelimiterCount(above))
            == Group(above, DelimiterCount(above)) + [Word(Normalize(line), DelimiterCount(above))]
    ensures forall k :: k != DelimiterCount(above) ==> Group(above + [line], k) == Group(above, k)
    ensures ClosedGroups(above + [line]) == ClosedGroups(above)
  {
    var w := Word(Normalize(line), DelimiterCount(above));
    WordsAppend(above, line);
    forall k ensures Group(above + [line], k) == Group(above, k) + (if k == w.level then [w] else []) {
      OfLevelSnoc(Words(above), w, k);
    }
    GroupMapSame(Words(above + [line]), Words(above), DelimiterCount(above));
  }

  // ---------------------------------------------------------------------
  // The state of `readFile` after a prefix of the file

  /**
   * After reading `above` (whose first line, if any, is a delimiter), the open
   * list is `null` if nothing was read and otherwise the group of the current
   * level.
   */
  function OpenList(above: seq<string>): Option<seq<Word>>
  {
    if above == [] then None else Some(Group(above, DelimiterCount(above)))
  }

  /** A delimiter line stores the open list under the current count and opens an empty one. */
  lemma ReadDelimiterLine(above: seq<string>, line: string)
    requires IsDelimiter(line) && !StartsWithWord(above)
    ensures DelimiterCount(above + [line]) == DelimiterCount(above) + 1
    ensures ClosedGroups(above + [line]) == ClosedGroups(above)[DelimiterCount(above) := OpenList(above)]
    ensures OpenList(above + [line]) == Some([])
    ensures !StartsWithWord(above + [line])
  {
    DelimiterStep(above, line);
    if above != [] {
      WordLevelsPositive(above);
    }
    assert (above + [line])[0] == if above == [] then line else above[0];
  }

  /** A word line after the first delimiter appends one word to the open list. */
  lemma ReadWordLine(above: seq<string>, line: string)
    requires !IsDelimiter(line) && !StartsWithWord(above) && above != []
    ensures DelimiterCount(above + [line]) == DelimiterCount(above)
    ensures ClosedGroups(above + [line]) == ClosedGroups(above)
    ensures OpenList(above) != None
    ensures OpenList(above + [line]) == Some(OpenList(above).value + [Word(Normalize(line), DelimiterCount(above))])
    ensures !StartsWithWord(above + [line])
  {
    WordStep(above, line);
    assert (above + [line])[0] == above[0];
  }

  /** The put after the loop adds the open list under the final count. */
  lemma ReadEndOfInput(lines: seq<string>)
    requires !StartsWithWord(lines)
    ensures AllGroups(lines) == ClosedGroups(lines)[DelimiterCount(lines) := OpenList(lines)]
  {
    if lines != [] {
      WordLevelsPositive(lines);
    }
    GroupMapGrow(Words(lines), DelimiterCount(lines));
  }

  // ---------------------------------------------------------------------
  // What a parsed file looks like

  /** Each delimiter line yields no word and each other line exactly one. */
  lemma {:induction false} WordsLength(lines: seq<string>)
    ensures |Words(lines)| + DelimiterCount(lines) == |lines|
  {
    if lines != [] {
      WordsLength(lines[..|lines| - 1]);
    }
  }

  /**
   * The word line at index `i` becomes the word at index `i - d` of `Words`,
   * where `d` is the number of delimiter lines above it; its text is the
   * normalised line and its level is `d`.
   */
  lemma {:induction false} WordOfLine(lines: seq<string>, i: nat)
    requires i < |lines| && !IsDelimiter(lines[i])
    ensures DelimiterCount(lines[..i]) <= i
    ensures i - DelimiterCount(lines[..i]) < |Words(lines)|
    ensures Words(lines)[i - DelimiterCount(lines[..i])] == Word(Normalize(lines[i]), DelimiterCount(lines[..i]))
  {
    var above := lines[..|lines| - 1];
    if i == |lines| - 1 {
      assert lines[..i] == above;
      WordsLength(above);
    } else {
      assert above[..i] == lines[..i];
      WordOfLine(above, i);
    }
  }

  /** Along a file, levels never go down. */
  predicate LevelsSorted(ws: seq<Word>)
  {
    forall a, b :: 0 <= a < b < |ws| ==> ws[a].level <= ws[b].level
  }

  /** The words of a file come level by level: their levels never go down. */
  lemma {:induction false} WordLevelsSorted(lines: seq<string>)
    ensures LevelsSorted(Words(lines))
  {
    if lines != [] {
      var above := lines[..|lines| - 1];
      assert lines == above + [lines[|lines| - 1]];
      WordLevelsSorted(above);
      WordLevelsBounded(above);
      WordsAppend(above, lines[|lines| - 1]);
    }
  }

  lemma {:induction false} LevelsUpToBeyond(ws: seq<Word>, m: nat, n: nat)
    requires m <= n
    requires forall j :: 0 <= j < |ws| ==> ws[j].level <= m
    ensures LevelsUpTo(ws, n) == LevelsUpTo(ws, m)
    decreases n
  {
    if n > m {
      LevelsUpToBeyond(ws, m, n - 1);
      OfLevelOfAbsent(ws, n);
    }
  }

  lemma LevelsUpToUnfold(ws: seq<Word>, m: nat)
    ensures LevelsUpTo(ws, m + 1) == LevelsUpTo(ws, m) + OfLevel(ws, m + 1)
  {
  }

  lemma {:induction false} LevelsUpToSame(ws: seq<Word>, other: seq<Word>, m: nat)
    requires forall k :: 1 <= k <= m ==> OfLevel(ws, k) == OfLevel(other, k)
    ensures LevelsUpTo(ws, m) == LevelsUpTo(other, m)
  {
    if m > 0 {
      LevelsUpToSame(ws, other, m - 1);
    }
  }

  /**
   * Words whose levels never go down and lie in `1 .. n` are given back, in
   * order, by reading their levels `1 .. n` one after the other.
   */
  lemma {:induction false} SortedLevelsPartition(ws: seq<Word>, n: nat)
    requires LevelsSorted(ws)
    requires forall j :: 0 <= j < |ws| ==> 1 <= ws[j].level <= n
    ensures LevelsUpTo(ws, n) == ws
  {
    if ws != [] {
      var front, w := ws[..|ws| - 1], ws[|ws| - 1];
      var top: nat := w.level;
      assert forall j :: 0 <= j < |front| ==> front[j] == ws[j];
      assert forall j :: 0 <= j < |ws| ==> ws[j].level <= top;
      SortedLevelsPartition(front, top);
      assert ws == front + [w];
      PartitionSnoc(front, w, top);
      assert LevelsUpTo(ws, top) == ws;
      LevelsUpToBeyond(ws, top, n);
    } else {
      LevelsUpToBeyond(ws, 0, n);
    }
  }

  /** A word of the last level read goes at the end of that level. */
  lemma PartitionSnoc(front: seq<Word>, w: Word, top: nat)
    requires top >= 1 && w.level == top
    ensures LevelsUpTo(front + [w], top) == LevelsUpTo(front, top) + [w]
  {
    var ws := front + [w];
    var before := LevelsUpTo(front, top - 1);
    OfLevelSnocBelow(front, w, top);
    LevelsUpToSame(ws, front, top - 1);
    assert OfLevel(ws, top) == OfLevel(front, top) + [w] by {
      OfLevelSnoc(front, w, top);
    }
    LevelsUpToUnfold(front, top - 1);
    LevelsUpToUnfold(ws, top - 1);
  }

  lemma OfLevelSnocBelow(front: seq<Word>, w: Word, top: int)
    requires w.level == top
    ensures forall k :: k < top ==> OfLevel(front + [w], k) == OfLevel(front, k)
  {
    forall k | k < top ensures OfLevel(front + [w], k) == OfLevel(front, k) {
      OfLevelSnoc(front, w, k);
    }
  }

  /**
   * Reading the groups of levels `1 .. n` in order gives back every word of
   * the file in file order: no word is lost, duplicated or moved.
   */
  lemma GroupsPartitionWords(lines: seq<string>)
    requires !StartsWithWord(lines)
    ensures LevelsUpTo(Words(lines), DelimiterCount(lines)) == Words(lines)
  {
    WordLevelsSorted(lines);
    WordLevelsBounded(lines);
    WordLevelsPositive(lines);
    SortedLevelsPartition(Words(lines), DelimiterCount(lines));
  }

  /** A file that ends with a delimiter line has an empty last group. */
  lemma LastGroupEmptyAfterTrailingDelimiter(lines: seq<string>)
    requires |lines| > 0 && IsDelimiter(lines[|lines| - 1])
    ensures DelimiterCount(lines) >= 1
    ensures AllGroups(lines)[DelimiterCount(lines)] == Some([])
  {
    var above, line := lines[..|lines| - 1], lines[|lines| - 1];
    assert lines == above + [line];
    WordsAppend(above, line);
    var n := DelimiterCount(above) + 1;
    assert DelimiterCount(lines) == n && Words(lines) == Words(above);
    GroupBeyondIsEmpty(above, n);
    assert AllGroups(lines)[n] == StoredGroup(Words(above), n);
  }

  /** A stored word is lower-case and trimmed, and normalising it again changes nothing. */
  lemma NormalizeIdempotent(line: string)
    ensures forall i :: 0 <= i < |Normalize(line)| ==> !IsUpper(Normalize(line)[i])
    ensures Normalize(line) == [] || (!IsTrimmable(Normalize(line)[0]) && !IsTrimmable(Normalize(line)[|Normalize(line)| - 1]))
    ensures Normalize(Normalize(line)) == Normalize(line)
  {
    var s := Normalize(line);
    var lower := ToLower(line);
    ToLowerSpec(line);
    TrimSpec(lower);
    forall i | 0 <= i < |s| ensures !IsUpper(s[i]) {
      assert s[i] == lower[TrimOffset(lower) + i];
    }
    ToLowerLower(s);
    TrimTrimmed(s);
  }

  // ---------------------------------------------------------------------
  // Examples

  /** Surrounding blanks go and capitals are lowered. */
  lemma NormalizeExample()
    ensures Normalize("  CaT  ") == "cat"
  {
    assert ToLower("  CaT  ") == "  cat  ";
    assert TrimStart("  cat  ") == "cat  ";
    assert TrimEnd("cat  ") == "cat";
  }

  /**
   * A file whose levels each open with a `%` line: `d1, a, b, d2, c` with
   * `d1`, `d2` delimiters and `a`, `b`, `c` word lines gives two levels,
   * `[a, b]` and `[c]`, and `null` under key 0.
   */
  lemma ParseExample(d1: string, a: string, b: string, d2: string, c: string)
    requires IsDelimiter(d1) && IsDelimiter(d2)
    requires !IsDelimiter(a) && !IsDelimiter(b) && !IsDelimiter(c)
    ensures DelimiterCount([d1, a, b, d2, c]) == 2
    ensures AllGroups([d1, a, b, d2, c])
            == map[0 := None,
                   1 := Some([Word(Normalize(a), 1), Word(Normalize(b), 1)]),
                   2 := Some([Word(Normalize(c), 2)])]
  {
    var wa, wb, wc := Word(Normalize(a), 1), Word(Normalize(b), 1), Word(Normalize(c), 2);
    ExampleWords(d1, a, b, d2, c);
    var ws := [wa, wb, wc];
    ExampleLevels(ws);
    var expected := map[0 := None, 1 := Some([wa, wb]), 2 := Some([wc])];
    assert GroupMap(ws, 3).Keys == expected.Keys;
  }

  lemma ExampleWords(d1: string, a: string, b: string, d2: string, c: string)
    requires IsDelimiter(d1) && IsDelimiter(d2)
    requires !IsDelimiter(a) && !IsDelimiter(b) && !IsDelimiter(c)
    ensures DelimiterCount([d1, a, b, d2, c]) == 2
    ensures Words([d1, a, b, d2, c]) == [Word(Normalize(a), 1), Word(Normalize(b), 1), Word(Normalize(c), 2)]
  {
    WordsAppend([], d1);
    assert [] + [d1] == [d1];
    WordsAppend([d1], a);
    assert [d1] + [a] == [d1, a];
    WordsAppend([d1, a], b);
    assert [d1, a] + [b] == [d1, a, b];
    WordsAppend([d1, a, b], d2);
    assert [d1, a, b] + [d2] == [d1, a, b, d2];
    WordsAppend([d1, a, b, d2], c);
    assert [d1, a, b, d2] + [c] == [d1, a, b, d2, c];
  }

  lemma ExampleLevels(ws: seq<Word>)
    requires |ws| == 3 && ws[0].level == 1 && ws[1].level == 1 && ws[2].level == 2
    ensures OfLevel(ws, 1) == [ws[0], ws[1]]
    ensures OfLevel(ws, 2) == [ws[2]]
  {
    assert [] + [ws[0]] == [ws[0]];
    assert [ws[0]] + [ws[1]] == [ws[0], ws[1]];
    assert [ws[0], ws[1]] + [ws[2]] == ws;
    OfLevelSnoc([], ws[0], 1);
    OfLevelSnoc([ws[0]], ws[1], 1);
    OfLevelSnoc([ws[0], ws[1]], ws[2], 1);
    OfLevelSnoc([], ws[0], 2);
    OfLevelSnoc([ws[0]], ws[1], 2);
    OfLevelSnoc([ws[0], ws[1]], ws[2], 2);
  }
}
