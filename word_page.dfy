/** The word page (client/src/pages/WordFrom.jsx): the add/edit form with its GIF
    choice, the combined list of words across the four levels, and the searched, paged
    table. */
module WordPage {
  import opened Wrappers
  import opened Text
  import opened Seqs
  import opened FormRules
  import WordsService
  import Paging

  /** `LEVELS` */
  const Levels: seq<string> := ["Pre-KG", "LKG", "UKG", "1st Std"]

  const DefaultGrade: string := "Pre-KG"

  /** The form's initial grade is the selector's first option. */
  lemma DefaultGradeListed()
    ensures DefaultGrade in Levels
  {
    assert Levels[0] == DefaultGrade;
  }
  const WordRequiredMsg: string := "Word is required"

  /** A listed word document, `{ id, ...data }`; an absent string field is `''`, and
      `seconds` is `createdAt?.seconds`. */
  datatype ListedWord = ListedWord(
    id: string, text: string, level: string, levelName: string, grade: string,
    gifUrl: Option<string>, seconds: Option<int>)

  /** `{ ...w, level: w.level || w.levelName || w.grade || '' }` */
  function NormalizeLevel(w: ListedWord): (n: ListedWord)
    ensures n == w.(level := n.level)
    ensures n.level == w.level || n.level == w.levelName || n.level == w.grade
    ensures n.level == "" <==> w.level == "" && w.levelName == "" && w.grade == ""
    ensures w.level != "" ==> n.level == w.level
    ensures w.level == "" && w.levelName != "" ==> n.level == w.levelName
  {
    w.(level := if w.level != "" then w.level else if w.levelName != "" then w.levelName else w.grade)
  }

  /** `createdAt?.seconds || 0` */
  function SortKey(w: ListedWord): int
  {
    if w.seconds.Some? then w.seconds.value else 0
  }

  /** Newest first: keys never increase along the list. */
  predicate NewestFirst(s: seq<ListedWord>)
  {
    forall i, j :: 0 <= i < j < |s| ==> SortKey(s[i]) >= SortKey(s[j])
  }

  /** `w` placed before the first element whose key is not larger than its own. */
  function InsertByKey(w: ListedWord, t: seq<ListedWord>): (r: seq<ListedWord>)
    ensures |r| == |t| + 1
    ensures multiset(r) == multiset(t) + multiset{w}
  {
    if t == [] then [w]
    else if SortKey(t[0]) <= SortKey(w) then [w] + t
    else
      assert t == [t[0]] + t[1..];
      [t[0]] + InsertByKey(w, t[1..])
  }

  /** A head no older than everything after it keeps a newest-first list newest first. */
  lemma ConsNewestFirst(x: ListedWord, t: seq<ListedWord>)
    requires NewestFirst(t)
    requires forall y :: y in t ==> SortKey(x) >= SortKey(y)
    ensures NewestFirst([x] + t)
  {
    forall i, j | 0 <= i < j < |t| + 1 ensures SortKey(([x] + t)[i]) >= SortKey(([x] + t)[j]) {
      assert ([x] + t)[j] == t[j - 1];
      if i > 0 {
        assert ([x] + t)[i] == t[i - 1];
      }
    }
  }

  /** Inserting into a newest-first list keeps it newest first. */
  lemma {:induction false} InsertByKeySorted(w: ListedWord, t: seq<ListedWord>)
    requires NewestFirst(t)
    ensures NewestFirst(InsertByKey(w, t))
  {
    if t == [] {
    } else if SortKey(t[0]) <= SortKey(w) {
      ConsNewestFirst(w, t);
    } else {
      var rest := InsertByKey(w, t[1..]);
      assert NewestFirst(t[1..]);
      InsertByKeySorted(w, t[1..]);
      assert t == [t[0]] + t[1..];
      forall y | y in rest ensures SortKey(t[0]) >= SortKey(y) {
        assert y in multiset(rest);
        if y != w {
          var j :| 0 <= j < |t[1..]| && t[1..][j] == y;
          assert t[j + 1] == y;
        }
      }
      ConsNewestFirst(t[0], rest);
    }
  }

  /** `combined.sort((a, b) => bs - as)`: newest first, a rearrangement of the input. */
  function SortByNewest(s: seq<ListedWord>): (r: seq<ListedWord>)
    ensures |r| == |s|
    ensures multiset(r) == multiset(s)
    ensures NewestFirst(r)
  {
    if s == [] then []
    else
      assert s == [s[0]] + s[1..];
      var sorted := SortByNewest(s[1..]);
      InsertByKeySorted(s[0], sorted);
      InsertByKey(s[0], sorted)
  }

  function KeyIs(k: int): ListedWord -> bool
  {
    (w: ListedWord) => SortKey(w) == k
  }

  /** Filtering a one-element list. */
  lemma FilterSingle(x: ListedWord, k: int)
    ensures Filter([x], KeyIs(k)) == if SortKey(x) == k then [x] else []
  {
    assert [x][1..] == [];
  }

  lemma SwapPastEmpty(a: seq<ListedWord>, b: seq<ListedWord>, c: seq<ListedWord>)
    requires a == [] || b == []
    ensures a + (b + c) == b + (a + c)
  {
  }

  lemma {:induction false} InsertByKeyStable(w: ListedWord, t: seq<ListedWord>, k: int)
    ensures Filter(InsertByKey(w, t), KeyIs(k)) == (if SortKey(w) == k then [w] else []) + Filter(t, KeyIs(k))
  {
    var p := KeyIs(k);
    FilterSingle(w, k);
    if t == [] {
    } else if SortKey(t[0]) <= SortKey(w) {
      FilterConcat([w], t, p);
    } else {
      var rest := InsertByKey(w, t[1..]);
      assert InsertByKey(w, t) == [t[0]] + rest;
      assert t == [t[0]] + t[1..];
      FilterConcat([t[0]], rest, p);
      FilterConcat([t[0]], t[1..], p);
      FilterSingle(t[0], k);
      InsertByKeyStable(w, t[1..], k);
      // t[0] is strictly older than w, so at most one of the two has key k
      SwapPastEmpty(Filter([t[0]], p), if SortKey(w) == k then [w] else [], Filter(t[1..], p));
    }
  }

  /** The sort is stable: words with the same key keep their original order. */
  lemma {:induction false} SortByNewestStable(s: seq<ListedWord>, k: int)
    ensures Filter(SortByNewest(s), KeyIs(k)) == Filter(s, KeyIs(k))
  {
    if s != [] {
      SortByNewestStable(s[1..], k);
      InsertByKeyStable(s[0], SortByNewest(s[1..]), k);
    }
  }

  /** `fetchAllWords`: the four level lists flattened, each level normalised, newest
      first. */
  function CombineWords(results: seq<seq<ListedWord>>): (combined: seq<ListedWord>)
    ensures |combined| == SumLengths(results)
    ensures multiset(combined) == multiset(Map(Flatten(results), NormalizeLevel))
    ensures NewestFirst(combined)
  {
    SortByNewest(Map(Flatten(results), NormalizeLevel))
  }

  /** Some level list holds a word that normalises to `w`. */
  ghost predicate ListedAs(results: seq<seq<ListedWord>>, w: ListedWord)
  {
    exists k, i :: 0 <= k < |results| && 0 <= i < |results[k]| && w == NormalizeLevel(results[k][i])
  }

  lemma MappedIsListed(results: seq<seq<ListedWord>>, w: ListedWord)
    requires w in Map(Flatten(results), NormalizeLevel)
    ensures ListedAs(results, w)
  {
    var flat := Flatten(results);
    var mapped := Map(flat, NormalizeLevel);
    var p :| 0 <= p < |mapped| && mapped[p] == w;
    FlattenMembers(results, flat[p]);
    var k :| 0 <= k < |results| && flat[p] in results[k];
    var i :| 0 <= i < |results[k]| && results[k][i] == flat[p];
    assert w == NormalizeLevel(results[k][i]);
  }

  lemma ListedIsMapped(results: seq<seq<ListedWord>>, w: ListedWord)
    requires ListedAs(results, w)
    ensures w in Map(Flatten(results), NormalizeLevel)
  {
    var flat := Flatten(results);
    var k, i :| 0 <= k < |results| && 0 <= i < |results[k]| && w == NormalizeLevel(results[k][i]);
    FlattenMembers(results, results[k][i]);
    var p :| 0 <= p < |flat| && flat[p] == results[k][i];
    assert Map(flat, NormalizeLevel)[p] == w;
  }

  /** Every listed word appears in the combined list with its level normalised, and
      the combined list holds nothing else. */
  lemma CombineWordsMembers(results: seq<seq<ListedWord>>, w: ListedWord)
    ensures w in CombineWords(results) <==> ListedAs(results, w)
  {
    var mapped := Map(Flatten(results), NormalizeLevel);
    assert w in CombineWords(results) <==> w in multiset(mapped);
    if w in mapped {
      MappedIsListed(results, w);
    }
    if ListedAs(results, w) {
      ListedIsMapped(results, w);
    }
  }

  /** The search test: the lowered text or level contains the lowered search text. */
  predicate MatchesSearch(w: ListedWord, search: string)
  {
    Includes(ToLower(w.text), ToLower(search)) || Includes(ToLower(w.level), ToLower(search))
  }

  function SearchTest(search: string): ListedWord -> bool
  {
    (w: ListedWord) => MatchesSearch(w, search)
  }

  /** `filtered`: exactly the words that match the search, in list order. */
  function Filtered(words: seq<ListedWord>, search: string): (r: seq<ListedWord>)
    ensures forall k :: 0 <= k < |r| ==> r[k] in words && MatchesSearch(r[k], search)
    ensures forall k :: 0 <= k < |words| && MatchesSearch(words[k], search) ==> words[k] in r
  {
    Filter(words, SearchTest(search))
  }

  /** Searching keeps the newest-first order of the combined list. */
  lemma {:induction false} FilteredKeepsOrder(words: seq<ListedWord>, search: string)
    requires NewestFirst(words)
    ensures NewestFirst(Filtered(words, search))
    decreases |words|
  {
    if words != [] {
      var rest := words[1..];
      assert NewestFirst(rest);
      FilteredKeepsOrder(rest, search);
      var tail := Filtered(rest, search);
      var p := SearchTest(search);
      assert Filtered(words, search) == (if p(words[0]) then [words[0]] else []) + tail;
      if p(words[0]) {
        HeadNewestOverFiltered(words, search);
        ConsNewestFirst(words[0], tail);
      } else {
        assert [] + tail == tail;
      }
    }
  }

  /** The head of a newest-first list is no older than anything the search keeps from
      the rest. */
  lemma HeadNewestOverFiltered(words: seq<ListedWord>, search: string)
    requires words != [] && NewestFirst(words)
    ensures forall x :: x in Filtered(words[1..], search) ==> SortKey(words[0]) >= SortKey(x)
  {
    var rest := words[1..];
    forall x | x in Filtered(rest, search) ensures SortKey(words[0]) >= SortKey(x) {
      var j :| 0 <= j < |rest| && rest[j] == x;
      assert words[j + 1] == x;
    }
  }

  /** The table: the rows of the current page of the filtered list. */
  function PageRows(words: seq<ListedWord>, search: string, currentPage: int): (r: seq<ListedWord>)
    ensures |r| <= Paging.PageSize
  {
    Paging.PageItems(Filtered(words, search), currentPage)
  }

  /** The save the form makes. */
  datatype WordRequest =
    | AddWordRequest(text: string, level: string, gifFile: Option<string>, gifUrl: Option<string>)
    | UpdateWordRequest(level: string, id: string, text: string, gifUrl: Option<string>)

  /** The `gifUrl` of an update: `gifPath || preview || null`. */
  function UpdateGifUrl(gifPath: string, preview: string): (url: Option<string>)
    ensures url.Some? <==> gifPath != "" || preview != ""
    ensures url.Some? ==> url.value == (if gifPath != "" then gifPath else preview)
  {
    if gifPath != "" then Some(gifPath) else if preview != "" then Some(preview) else None
  }

  /** The save `onSubmit` builds from the form's inputs: none while the trimmed text is
      empty, an update of the edited word, or a create with the chosen file. */
  function SubmitRequest(text: string, grade: string, editingId: Option<string>, gifFile: Option<string>,
                         gifPath: string, preview: string): (r: Option<WordRequest>)
    ensures r.Some? <==> Trim(text) != ""
    ensures r.Some? ==> r.value.text == text && r.value.level == grade
    ensures r.Some? ==> (r.value.UpdateWordRequest? <==> editingId.Some?)
    ensures r.Some? && editingId.Some? ==> r.value.id == editingId.value && r.value.gifUrl == UpdateGifUrl(gifPath, preview)
    ensures r.Some? && editingId.None? ==>
      r.value.gifFile == gifFile && r.value.gifUrl == (if gifPath != "" then Some(gifPath) else None)
  {
    if Trim(text) == "" then None
    else if editingId.Some? then Some(UpdateWordRequest(grade, editingId.value, text, UpdateGifUrl(gifPath, preview)))
    else Some(AddWordRequest(text, grade, gifFile, if gifPath != "" then Some(gifPath) else None))
  }

  /** What the form sends passes the service's argument checks: a create carries a
      non-empty text and level, and an update a non-empty level and id. The grade is
      never empty (a selector option, or an edited word's level with `'Pre-KG'` as the
      fallback) and an edited word has a document id. The grade need not be one of the
      four levels: an edited word keeps whatever level it was listed under. */
  lemma FormRequestsPassServiceChecks(text: string, grade: string, editingId: Option<string>, gifFile: Option<string>,
                                      gifPath: string, preview: string, uploadedUrl: Option<string>)
    requires grade != "" && (editingId.Some? ==> editingId.value != "")
    ensures var r := SubmitRequest(text, grade, editingId, gifFile, gifPath, preview);
      && (r.Some? && r.value.AddWordRequest? ==>
            WordsService.AddWord(r.value.text, r.value.level, r.value.gifUrl, uploadedUrl, "").Ok?)
      && (r.Some? && r.value.UpdateWordRequest? ==> WordsService.CheckLevelAndId(r.value.level, r.value.id).Pass?)
  {
    assert Trim("") == "";
  }

  class WordForm {
    var text: string
    /** The chosen GIF file, by name; `None` for no file. */
    var gifFile: Option<string>
    var gifPath: string
    var preview: string
    var grade: string
    var errors: Errors
    /** The id of `editingWord`, `None` when adding. */
    var editingId: Option<string>
    var showModal: bool

    /** The form's inputs: text, file, path, preview and grade. */
    function Inputs(): (string, Option<string>, string, string, string)
      reads this
    {
      (text, gifFile, gifPath, preview, grade)
    }

    /** The grade is never empty, and an edited word has a document id. */
    predicate Valid()
      reads this
    {
      grade != "" && (editingId.Some? ==> editingId.value != "")
    }

    constructor ()
      ensures text == "" && gifFile.None? && gifPath == "" && preview == "" && grade == DefaultGrade
      ensures errors == map[] && editingId.None? && !showModal && Valid()
    {
      text, gifFile, gifPath, preview, grade := "", None, "", "", DefaultGrade;
      errors := map[];
      editingId := None;
      showModal := false;
    }

    /** The Edit button of a listed word: the form is filled from the word, with its
        level (or `'Pre-KG'` when it has none) as the grade and its GIF URL as both path
        and preview, and the modal opens. A listed word's id is its document id, which
        is never empty. */
    method OnEdit(w: ListedWord)
      requires w.id != ""
      modifies this
      ensures editingId == Some(w.id) && showModal
      ensures grade == (if w.level != "" then w.level else DefaultGrade)
      ensures text == w.text && gifFile.None?
      ensures gifPath == (if w.gifUrl.Some? then w.gifUrl.value else "") && preview == gifPath
      ensures errors == old(errors)
      ensures Valid()
    {
      editingId := Some(w.id);
      grade := if w.level != "" then w.level else DefaultGrade;
      text := w.text;
      gifFile := None;
      gifPath := if w.gifUrl.Some? then w.gifUrl.value else "";
      preview := gifPath;
      showModal := true;
    }

    /** The class selector: one of its four options. */
    method OnGradeChange(g: string)
      requires g in Levels
      modifies this`grade
      ensures grade == g && grade in Levels
      ensures old(Valid()) ==> Valid()
    {
      grade := g;
    }

    /** A file chosen (`objectUrl` is its preview URL), or the choice cleared. */
    method OnFileChange(file: Option<string>, objectUrl: string)
      modifies this
      ensures gifFile == file
      ensures file.Some? ==> preview == objectUrl && gifPath == ""
      ensures file.None? ==> preview == "" && gifPath == old(gifPath)
      ensures text == old(text) && grade == old(grade) && errors == old(errors)
      ensures editingId == old(editingId) && showModal == old(showModal)
    {
      gifFile := file;
      if file.Some? {
        preview := objectUrl;
        gifPath := "";
      } else {
        preview := "";
      }
    }

    /** A URL typed into the path field replaces any chosen file and is its own preview. */
    method OnPathChange(path: string)
      modifies this
      ensures gifPath == path && gifFile.None? && preview == path
      ensures text == old(text) && grade == old(grade) && errors == old(errors)
      ensures editingId == old(editingId) && showModal == old(showModal)
    {
      gifPath := path;
      gifFile := None;
      preview := path;
    }

    method RemovePreview()
      modifies this
      ensures preview == "" && gifFile.None? && gifPath == ""
      ensures text == old(text) && grade == old(grade) && errors == old(errors)
      ensures editingId == old(editingId) && showModal == old(showModal)
    {
      preview := "";
      gifFile := None;
      gifPath := "";
    }

    /** `onSubmit`: the save built by `SubmitRequest` from the inputs, or the text error
        when there is none. After a save the form resets; after a failed one it stays as
        it was. */
    method OnSubmit(saved: bool) returns (request: Option<WordRequest>)
      requires Valid()
      modifies this
      ensures request == SubmitRequest(old(text), old(grade), old(editingId), old(gifFile), old(gifPath), old(preview))
      ensures request.Some? ==> errors == map[]
      ensures request.None? ==> errors == map[TextKey := WordRequiredMsg]
      ensures request.Some? && saved ==> Inputs() == ("", None, "", "", DefaultGrade) && editingId.None? && !showModal
      ensures !(request.Some? && saved) ==> Inputs() == old(Inputs()) && editingId == old(editingId) && showModal == old(showModal)
      ensures Valid()
    {
      request := SubmitRequest(text, grade, editingId, gifFile, gifPath, preview);
      if request.None? {
        errors := map[TextKey := WordRequiredMsg];
        return;
      }
      errors := map[];
      if !saved {
        return;
      }
      ResetAfterSave();
    }

    /** The reset after a save: empty inputs, the default grade, no errors, the modal
        closed and nothing being edited. */
    method ResetAfterSave()
      modifies this
      ensures Inputs() == ("", None, "", "", DefaultGrade) && errors == map[] && editingId.None? && !showModal
      ensures Valid()
    {
      text, gifFile, gifPath, preview, grade := "", None, "", "", DefaultGrade;
      errors, showModal, editingId := map[], false, None;
    }
  }
}
