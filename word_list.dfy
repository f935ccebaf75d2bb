/**
 * The `voxspell_data.WordList` class: a map from level number to the list of
 * words of that level, filled once from the level file, and a sampler that
 * shuffles a stored list in place and hands out its first ten words.
 */
module VoxspellData {
  import opened Wrappers
  import opened LevelFile

  /** How many words `getLevelList` copies out of the shuffled level. */
  const SampleSize: nat := 10

  /**
   * What opening and reading the level file yields: it cannot be opened at
   * all, or it delivers `lines` and then either ends or has `readLine` throw
   * an `IOException`.
   */
  datatype WordFile = Unopenable | Readable(lines: seq<string>, failsAfter: bool)

  /**
   * How `readFile` ends: normally, with an `IOException` that its handler
   * absorbs, or with the `NullPointerException` of adding to a `null` list,
   * which no handler catches.
   */
  datatype ReadOutcome = Loaded | IoExceptionCaught | NullPointerThrown

  /** The one exception that escapes `getInstance`: `readFile`'s `NullPointerException`. */
  datatype InstanceError = ConstructorThrewNullPointer

  /** The exceptions `getLevelList` can throw. */
  datatype LevelError =
    | NullGroup          // `Collections.shuffle(null)`: no list, or a null list, under that key
    | IndexOutOfBounds   // `get(i)` on a list with at most `i` words

  /** Which way `readFile` ends on a given file. */
  function ExpectedOutcome(file: WordFile): (o: ReadOutcome)
    ensures o == NullPointerThrown <==> file.Readable? && StartsWithWord(file.lines)
    ensures o == Loaded <==> file.Readable? && !StartsWithWord(file.lines) && !file.failsAfter
  {
    match file
    case Unopenable => IoExceptionCaught
    case Readable(lines, failsAfter) =>
      if StartsWithWord(lines) then NullPointerThrown
      else if failsAfter then IoExceptionCaught
      else Loaded
  }

  /**
   * A file that opens with word lines (`apple`, `banana`, `%`, `xylophone`,
   * `yoyo`) is never loaded: the first add meets the still-`null` list.
   */
  lemma WordBeforeFirstDelimiterThrows()
    ensures ExpectedOutcome(Readable(["apple", "banana", "%", "xylophone", "yoyo"], false)) == NullPointerThrown
  {
  }

  /**
   * `Collections.shuffle` on a random-access list: for `i` from the size down
   * to 2 it swaps position `i - 1` with a position drawn below `i`. The random
   * source is the parameter `rng`: its `k`-th number, reduced below `i`,
   * stands for the `k`-th `nextInt(i)`. Whatever it draws, the result is a
   * permutation of `s`.
   */
  method Shuffle<T>(s: seq<T>, rng: nat -> nat) returns (t: seq<T>)
    ensures |t| == |s|
    ensures multiset(t) == multiset(s)
  {
    t := s;
    var i := |t|;
    while i > 1
      invariant 0 <= i <= |t| == |s|
      invariant multiset(t) == multiset(s)
    {
      var j := rng(|s| - i) % i;
      SwapPreservesMultiset(t, i - 1, j);
      t := t[i - 1 := t[j]][j := t[i - 1]];
      i := i - 1;
    }
  }

  lemma SwapPreservesMultiset<T>(s: seq<T>, a: nat, b: nat)
    requires a < |s| && b < |s|
    ensures multiset(s[a := s[b]][b := s[a]]) == multiset(s)
  {
  }

  lemma UnionUpdate<K, V>(m: map<K, V>, c: map<K, V>, k: K, v: V)
    ensures (m + c)[k := v] == m + c[k := v]
  {
  }

  /**
   * The loop of `getLevelList` that copies `get(0)` .. `get(9)` into a new
   * list: it fails on the first index the list does not have.
   */
  method TakeFirst<T>(full: seq<T>) returns (r: Result<seq<T>, LevelError>)
    ensures r.Success? <==> |full| >= SampleSize
    ensures r.Success? ==> r.value == full[..SampleSize]
    ensures r.Failure? ==> r.error == IndexOutOfBounds
  {
    var returnList: seq<T> := [];
    for i := 0 to SampleSize
      invariant i <= |full|
      invariant returnList == full[..i]
    {
      if i >= |full| {
        return Failure(IndexOutOfBounds);
      }
      returnList := returnList + [full[i]];
    }
    return Success(returnList);
  }

  class WordList {
    /** `_spellingMap`: level number to stored list; `None` is a stored `null`. */
    var spellingMap: map<int, Option<seq<Word>>>
    /** `_levelCount`. */
    var levelCount: int

    /**
     * The first half of the private constructor: an empty map, and
     * `_levelCount` at Java's default 0. `ReadFile` is the second half.
     */
    constructor Init()
      ensures spellingMap == map[] && levelCount == 0
    {
      spellingMap := map[];
      levelCount := 0;
    }

    /** `getLevelCount()`: the stored count; as a function it changes nothing. */
    function GetLevelCount(): (n: int)
      reads this
      ensures n == levelCount
    {
      levelCount
    }

    /**
     * `readFile()`: one `put` per delimiter line and one at the end of input,
     * then `_levelCount` is set. An `IOException` (at opening or while
     * reading) leaves whatever was put so far and skips both final steps; a
     * first line that is a word line throws before anything is put.
     */
    method ReadFile(file: WordFile) returns (outcome: ReadOutcome)
      modifies this
      ensures outcome == ExpectedOutcome(file)
      ensures outcome == NullPointerThrown <==> file.Readable? && StartsWithWord(file.lines)
      ensures outcome == Loaded <==> file.Readable? && !StartsWithWord(file.lines) && !file.failsAfter
      ensures outcome == NullPointerThrown ==> spellingMap == old(spellingMap) && levelCount == old(levelCount)
      ensures outcome == IoExceptionCaught ==>
                && levelCount == old(levelCount)
                && spellingMap == old(spellingMap) + (if file.Readable? then ClosedGroups(file.lines) else map[])
      ensures outcome == Loaded ==>
                && levelCount == DelimiterCount(file.lines)
                && spellingMap == old(spellingMap) + AllGroups(file.lines)
    {
      if file.Unopenable? {
        return IoExceptionCaught;
      }
      var lines := file.lines;
      ghost var base := spellingMap;
      var level := 0;
      var levelList: Option<seq<Word>> := None;
      var i := 0;
      while i < |lines|
        invariant 0 <= i <= |lines|
        invariant !StartsWithWord(lines[..i])
        invariant level == DelimiterCount(lines[..i])
        invariant levelList == OpenList(lines[..i])
        invariant spellingMap == base + ClosedGroups(lines[..i])
        invariant levelCount == old(levelCount)
      {
        var currentLine := lines[i];
        ghost var above := lines[..i];
        assert lines[..i + 1] == above + [currentLine];
        if IsDelimiter(currentLine) {
          ReadDelimiterLine(above, currentLine);
          UnionUpdate(base, ClosedGroups(above), level, levelList);
          spellingMap := spellingMap[level := levelList];
          level := level + 1;
          levelList := Some([]);
        } else {
          if levelList.None? {
            assert lines != [] && !IsDelimiter(lines[0]);
            assert ClosedGroups([]) == map[];
            return NullPointerThrown;
          }
          ReadWordLine(above, currentLine);
          levelList := Some(levelList.value + [Word(Normalize(currentLine), level)]);
        }
        i := i + 1;
      }
      assert lines[..i] == lines;
      if file.failsAfter {
        return IoExceptionCaught;
      }
      ReadEndOfInput(lines);
      UnionUpdate(base, ClosedGroups(lines), level, levelList);
      spellingMap := spellingMap[level := levelList];
      levelCount := level;
      return Loaded;
    }

    /**
     * `getLevelList(level)`: shuffles the stored list of `level` in place and
     * returns its first ten words. With no list (or a `null` one) under that
     * key the shuffle throws and nothing changes; with fewer than ten words
     * the copy throws, after the stored list has been shuffled.
     */
    method GetLevelList(level: int, rng: nat -> nat) returns (r: Result<seq<Word>, LevelError>)
      modifies this
      ensures levelCount == old(levelCount)
      ensures level !in old(spellingMap) || old(spellingMap)[level].None? ==>
                r == Failure(NullGroup) && spellingMap == old(spellingMap)
      ensures level in old(spellingMap) && old(spellingMap)[level].Some? ==>
                var before := old(spellingMap)[level].value;
                && level in spellingMap && spellingMap[level].Some?
                && var after := spellingMap[level].value;
                && spellingMap == old(spellingMap)[level := Some(after)]
                && |after| == |before|
                && multiset(after) == multiset(before)
                && (r.Success? <==> |before| >= SampleSize)
                && (r.Success? ==> r.value == after[..SampleSize])
                && (r.Failure? ==> r.error == IndexOutOfBounds)
    {
      if level !in spellingMap || spellingMap[level].None? {
        return Failure(NullGroup);
      }
      var fullLevelList := Shuffle(spellingMap[level].value, rng);
      spellingMap := spellingMap[level := Some(fullLevelList)];
      r := TakeFirst(fullLevelList);
    }
  }

  /** The class's static `wordList` field, nothing else. */
  class WordListHolder {
    var wordList: WordList?

    /** Before the first `getInstance`, the static field holds its default `null`. */
    constructor Init()
      ensures wordList == null
    {
      wordList := null;
    }

    /**
     * `getInstance()`: builds the object on the first call and then always
     * returns the same one. A build whose `readFile` throws publishes
     * nothing, so the next call tries again.
     */
    method GetInstance(file: WordFile) returns (r: Result<WordList, InstanceError>)
      modifies this
      ensures old(wordList) != null ==> wordList == old(wordList) && r == Success(wordList)
      ensures old(wordList) == null && ExpectedOutcome(file) == NullPointerThrown ==>
                wordList == null && r == Failure(ConstructorThrewNullPointer)
      ensures old(wordList) == null && ExpectedOutcome(file) == Loaded ==>
                && wordList != null && fresh(wordList) && r == Success(wordList)
                && wordList.levelCount == DelimiterCount(file.lines)
                && wordList.spellingMap == AllGroups(file.lines)
      ensures old(wordList) == null && ExpectedOutcome(file) == IoExceptionCaught ==>
                && wordList != null && fresh(wordList) && r == Success(wordList)
                && wordList.levelCount == 0
                && wordList.spellingMap == (if file.Readable? then ClosedGroups(file.lines) else map[])
    {
      if wordList == null {
        var built := new WordList.Init();
        var outcome := built.ReadFile(file);
        if outcome == NullPointerThrown {
          return Failure(ConstructorThrewNullPointer);
        }
        wordList := built;
      }
      return Success(wordList);
    }
  }
}
