/** The vocabulary service (client/src/services/words.js): argument checks in front of
    the per-word Firestore calls, and the single vocabulary document whose `levels`
    array is read, changed in place and written back. The read (`getDoc`) is a
    parameter; the write (`setDoc`) is the returned value. */
module WordsService {
  import opened Wrappers
  import opened Text

  /** `addWord` returns `{ id, text, level, gifUrl }`. */
  datatype CreatedWord = CreatedWord(id: string, text: string, level: string, gifUrl: Option<string>)

  /** `addWord({ text, level, gifFile, gifUrl })`: `createdId` is the id the new document
      gets, and `uploadedUrl` is the download URL of the uploaded GIF when a file was
      given (`None` when there was no file). */
  function AddWord(text: string, level: string, gifUrl: Option<string>, uploadedUrl: Option<string>, createdId: string)
    : (r: Result<CreatedWord>)
    ensures r.Err? <==> text == "" || level == ""
    ensures r.Ok? ==> r.value.id == createdId && r.value.text == text && r.value.level == level
    ensures r.Ok? && uploadedUrl.Some? ==> r.value.gifUrl == uploadedUrl
    ensures r.Ok? && uploadedUrl.None? ==> (r.value.gifUrl.Some? <==> Truthy(gifUrl)) && (Truthy(gifUrl) ==> r.value.gifUrl == gifUrl)
  {
    if text == "" || level == "" then Err("text and level are required")
    else
      // `gifUrl || null`, replaced by the download URL when a file is uploaded
      var initial := if Truthy(gifUrl) then gifUrl else None;
      Ok(CreatedWord(createdId, text, level, if uploadedUrl.Some? then uploadedUrl else initial))
  }

  /** The check shared by `updateWord(level, id, …)` and `deleteWord(level, id)`. */
  function CheckLevelAndId(level: string, id: string): (r: Check)
    ensures r.Pass? <==> level != "" && id != ""
  {
    if level == "" || id == "" then Fail("level and id are required") else Pass
  }

  /** One word inside a level of the vocabulary document. */
  datatype VocabWord = VocabWord(gifPath: string, id: string, text: string)

  /** One level of the vocabulary document. */
  datatype Level = Level(level: string, words: seq<VocabWord>)

  /** The argument of `seedVocabularyData`: an array of levels, or something else. */
  datatype LevelsArg = LevelArray(levels: seq<Level>) | NotAnArray

  /** `seedVocabularyData(levels)`: throws on a non-array, otherwise writes it as is. */
  function SeedVocabularyData(arg: LevelsArg): (r: Result<seq<Level>>)
    ensures r.Err? <==> arg.NotAnArray?
    ensures r.Ok? ==> r.value == arg.levels
  {
    match arg
    case NotAnArray => Err("levels must be an array")
    case LevelArray(levels) => Ok(levels)
  }

  /** `getVocabularyData()`: the stored levels, `[]` when the document does not exist. */
  function GetVocabularyData(snap: Option<seq<Level>>): (levels: seq<Level>)
    ensures snap.None? ==> levels == []
    ensures snap.Some? ==> levels == snap.value
  {
    if snap.Some? then snap.value else []
  }

  predicate HasLevel(levels: seq<Level>, name: string)
  {
    exists i :: 0 <= i < |levels| && levels[i].level == name
  }

  /** The position `find` stops at: the first level named `name`, or `|levels|`. */
  function FirstLevel(levels: seq<Level>, name: string): (k: nat)
    ensures k <= |levels|
    ensures k < |levels| ==> levels[k].level == name
    ensures forall j :: 0 <= j < k ==> levels[j].level != name
    ensures k == |levels| <==> !HasLevel(levels, name)
  {
    if levels == [] then 0
    else if levels[0].level == name then 0
    else
      var k := 1 + FirstLevel(levels[1..], name);
      assert forall j :: 1 <= j < |levels| ==> levels[j] == levels[1..][j - 1];
      k
  }

  /** The levels once a level named `name` is guaranteed: unchanged when one exists,
      otherwise with an empty one at the end. */
  function WithLevel(levels: seq<Level>, name: string): seq<Level>
  {
    if HasLevel(levels, name) then levels else levels + [Level(name, [])]
  }

  /** How many levels are named `name`. */
  function CountLevel(levels: seq<Level>, name: string): nat
  {
    if levels == [] then 0 else (if levels[0].level == name then 1 else 0) + CountLevel(levels[1..], name)
  }

  lemma {:induction false} CountLevelAppend(levels: seq<Level>, extra: Level, name: string)
    ensures CountLevel(levels + [extra], name) == CountLevel(levels, name) + (if extra.level == name then 1 else 0)
  {
    if levels != [] {
      assert (levels + [extra])[1..] == levels[1..] + [extra];
      CountLevelAppend(levels[1..], extra, name);
    }
  }

  lemma {:induction false} CountLevelPositive(levels: seq<Level>, name: string)
    ensures CountLevel(levels, name) > 0 <==> HasLevel(levels, name)
  {
    if levels != [] {
      CountLevelPositive(levels[1..], name);
      assert forall j :: 1 <= j < |levels| ==> levels[j] == levels[1..][j - 1];
      if HasLevel(levels[1..], name) {
        var j :| 0 <= j < |levels[1..]| && levels[1..][j].level == name;
        assert levels[j + 1].level == name;
      }
    }
  }

  /** Adding a level is idempotent: a second call with the same name changes nothing,
      and afterwards a missing name is present exactly once while the count of an
      existing one is unchanged. */
  lemma AddLevelIdempotent(levels: seq<Level>, name: string)
    ensures WithLevel(WithLevel(levels, name), name) == WithLevel(levels, name)
    ensures CountLevel(WithLevel(levels, name), name) == (if HasLevel(levels, name) then CountLevel(levels, name) else 1)
  {
    var extra := Level(name, []);
    if !HasLevel(levels, name) {
      var after := levels + [extra];
      assert after[|levels|] == extra;
      assert HasLevel(after, name);
      CountLevelAppend(levels, extra, name);
      CountLevelPositive(levels, name);
    }
  }

  /** `addLevel(levelName)`: `None` when nothing is written (the level exists), otherwise
      the levels written back. */
  method AddLevel(levelName: string, snap: Option<seq<Level>>) returns (r: Result<Option<seq<Level>>>)
    ensures r.Err? <==> levelName == ""
    ensures r.Ok? ==> (r.value.None? <==> HasLevel(GetVocabularyData(snap), levelName))
    ensures r.Ok? && r.value.Some? ==> r.value.value == GetVocabularyData(snap) + [Level(levelName, [])]
    ensures r.Ok? ==> (if r.value.Some? then r.value.value else GetVocabularyData(snap))
                      == WithLevel(GetVocabularyData(snap), levelName)
  {
    if levelName == "" {
      return Err("levelName is required");
    }
    var current := GetVocabularyData(snap);
    var i := 0;
    while i < |current|
      invariant 0 <= i <= |current|
      invariant forall j :: 0 <= j < i ==> current[j].level != levelName
    {
      if current[i].level == levelName {
        return Ok(None);
      }
      i := i + 1;
    }
    current := current + [Level(levelName, [])];
    return Ok(Some(current));
  }

  /** The argument `word` of `addWordToLevel`; absent fields are empty strings. */
  datatype WordArg = WordArg(gifPath: string, id: string, text: string)

  /** `addWordToLevel(levelName, word)`: the levels written back. The word goes to the end
      of the first level with that name, which is appended first if there is none. */
  method AddWordToLevel(levelName: string, word: Option<WordArg>, snap: Option<seq<Level>>) returns (r: Result<seq<Level>>)
    ensures r.Err? <==> levelName == "" || word.None? || word.value.text == "" || word.value.id == ""
    ensures r.Ok? ==>
      var base := WithLevel(GetVocabularyData(snap), levelName);
      var k := FirstLevel(base, levelName);
      && k < |base|
      && k == (if HasLevel(GetVocabularyData(snap), levelName) then FirstLevel(GetVocabularyData(snap), levelName)
               else |GetVocabularyData(snap)|)
      && |r.value| == |base|
      && (forall i :: 0 <= i < |base| && i != k ==> r.value[i] == base[i])
      && r.value[k] == Level(levelName, base[k].words + [VocabWord(word.value.gifPath, word.value.id, word.value.text)])
  {
    if levelName == "" {
      return Err("levelName is required");
    }
    if word.None? || word.value.text == "" || word.value.id == "" {
      return Err("word must have id and text");
    }
    var current := GetVocabularyData(snap);
    ghost var original := current;
    var k := 0;
    while k < |current| && current[k].level != levelName
      invariant 0 <= k <= |current|
      invariant forall j :: 0 <= j < k ==> current[j].level != levelName
    {
      k := k + 1;
    }
    if k == |current| {
      current := current + [Level(levelName, [])];
      assert current[k].level == levelName;
    }
    assert current == WithLevel(original, levelName);
    assert k == FirstLevel(current, levelName);
    var entry := VocabWord(word.value.gifPath, word.value.id, word.value.text);
    current := current[k := Level(levelName, current[k].words + [entry])];
    return Ok(current);
  }
}
