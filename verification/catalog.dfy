/** The in-memory catalog `AuEngine` of scripts/artist_util.py: the name list, the tags and
    their member lists, the image and assorted file lists, and the selection of a list and of
    a name within it. The directory scan and file reads of the original constructor are outside
    the model: the constructor receives what they would have produced. */
module Catalog {
  import opened Wrappers
  import opened Strings
  import opened Lists
  import opened Loading

  /** The two lists offered before the tags (`SPECIAL_ALL`, `SPECIAL_NOTAG`). */
  const SpecialAll: string := "- All -"
  const SpecialNoTag: string := "- Uncategorized -"

  /** The configuration switches `SHOW_ASSORTED` and `HTML_ADD_ASSORTED`, as shipped. */
  const ShowAssorted: bool := false
  const HtmlAddAssorted: bool := false

  /** The entry for `name` in a map standing for a folder: the lines of a file (a missing file
      reads as no lines, as `load_string_list` returns `[]` for it) or the files of a
      subfolder. */
  function ContentsOf(files: map<string, seq<string>>, name: string): seq<string> {
    if name in files then files[name] else []
  }

  // ---------------------------------------------------------------------------------------
  // Derived views, as functions of the catalog's lists
  // ---------------------------------------------------------------------------------------

  /** `name` is a member of tag `t`. */
  predicate Tagged(data: map<string, seq<string>>, t: string, name: string) {
    t in data && name in data[t]
  }

  function HoldsName(data: map<string, seq<string>>, name: string): string -> bool {
    t => Tagged(data, t, name)
  }

  /** `get_name_tags`: the tags, in tag order, whose member list holds `name`; none for `''`. */
  function NameTags(name: string, tags: seq<string>, data: map<string, seq<string>>): (r: seq<string>)
    ensures forall t :: t in r <==> name != "" && t in tags && Tagged(data, t, name)
    ensures NoDups(tags) ==> NoDups(r)
  {
    if name == "" then []
    else
      FilterPreserves(tags, HoldsName(data, name));
      Filter(tags, HoldsName(data, name))
  }

  /** `name` is a member of at least one tag. */
  predicate HasTag(name: string, tags: seq<string>, data: map<string, seq<string>>) {
    exists t :: t in tags && Tagged(data, t, name)
  }

  function IsUntagged(tags: seq<string>, data: map<string, seq<string>>): string -> bool {
    n => !HasTag(n, tags, data)
  }

  /** `get_uncategorized_names`: the names, in name order, that belong to no tag. */
  function Uncategorized(names: seq<string>, tags: seq<string>, data: map<string, seq<string>>): (r: seq<string>)
    ensures forall n :: n in r <==> n in names && forall t :: t in tags ==> !Tagged(data, t, n)
    ensures NoDups(names) ==> NoDups(r)
    ensures Sorted(names) ==> Sorted(r)
  {
    FilterPreserves(names, IsUntagged(tags, data));
    Filter(names, IsUntagged(tags, data))
  }

  /** A non-empty name is uncategorized exactly when `get_name_tags` finds no tag for it. */
  lemma UncategorizedNoNameTags(n: string, names: seq<string>, tags: seq<string>, data: map<string, seq<string>>)
    requires n != "" && n in names
    ensures n in Uncategorized(names, tags, data) <==> NameTags(n, tags, data) == []
  {
    if NameTags(n, tags, data) != [] {
      assert NameTags(n, tags, data)[0] in NameTags(n, tags, data);
    }
  }

  function InPool(pool: seq<string>): string -> bool {
    x => x in pool
  }

  /** The names, in name order, that are members of `pool`. */
  function Members(names: seq<string>, pool: seq<string>): (r: seq<string>)
    ensures forall n :: n in r <==> n in names && n in pool
    ensures NoDups(names) ==> NoDups(r)
    ensures Sorted(names) ==> Sorted(r)
  {
    FilterPreserves(names, InPool(pool));
    Filter(names, InPool(pool))
  }

  /** The names `select_list` offers for list `item`, one of `list_choices`. Whatever list is
      chosen, its names are some of the catalog's names, in the catalog's order, each once. */
  function ListNames(item: string, names: seq<string>, tags: seq<string>, data: map<string, seq<string>>): (r: seq<string>)
    ensures forall n :: n in r ==> n in names
    ensures Sorted(names) && NoDups(names) ==> Sorted(r) && NoDups(r)
  {
    if item == SpecialAll then names
    else if item == SpecialNoTag then Uncategorized(names, tags, data)
    else if item in data then Members(names, data[item])
    else []
  }

  /** Which names each kind of list offers: `- All -` every name, `- Uncategorized -` the
      names in no tag, and a tag exactly the names that are its members. */
  lemma ListNamesCases(item: string, names: seq<string>, tags: seq<string>, data: map<string, seq<string>>)
    ensures var r := ListNames(item, names, tags, data);
      (item == SpecialAll ==> r == names)
      && (item == SpecialNoTag ==> forall n :: n in r <==> n in names && !HasTag(n, tags, data))
      && (item != SpecialAll && item != SpecialNoTag ==> forall n :: n in r <==> n in names && Tagged(data, item, n))
  {
  }

  /** The tag list `members` after `set_name_tags` has decided that `name` should (`on`) or
      should not be in it: untouched when it already agrees, otherwise the name appended or
      removed and the list sorted again. */
  function Retag(members: seq<string>, name: string, on: bool): (r: seq<string>)
    ensures Sorted(members) ==> Sorted(r)
    ensures on ==> name in r
    ensures |r| == if (name in members) == on then |members| else if on then |members| + 1 else |members| - 1
  {
    if (name in members) == on then members
    else if on then
      var r := SortStrings(members + [name]);
      assert name in multiset(r);
      r
    else
      var s := RemoveFirst(members, name);
      assert |multiset(s)| == |multiset(members)| - 1;
      SortStrings(s)
  }

  /** Retagging a sorted, duplicate-free list keeps it so, makes `name`'s membership equal
      `on`, and changes no other name's membership. */
  lemma {:induction false} RetagSpec(members: seq<string>, name: string, on: bool)
    requires Sorted(members) && NoDups(members)
    ensures var r := Retag(members, name, on);
      Sorted(r) && NoDups(r) && (name in r <==> on)
      && (forall m :: m != name ==> (m in r <==> m in members))
  {
    var r := Retag(members, name, on);
    if (name in members) != on {
      if on {
        NoDupsSnoc(members, name);
        assert forall m :: m in r <==> m in multiset(members + [name]);
      } else {
        var s := RemoveFirst(members, name);
        RemoveFirstSorted(members, name);
        NoDupsCount(members, name);
        assert multiset(r) == multiset(s) == multiset(members) - multiset{name};
        assert forall m :: m in r <==> m in multiset(r);
        assert forall m :: m in members <==> m in multiset(members);
      }
    }
  }

  lemma NoDupsSnoc(s: seq<string>, x: string)
    requires NoDups(s) && x !in s
    ensures NoDups(s + [x])
  {
    assert forall i :: 0 <= i < |s| ==> (s + [x])[i] == s[i];
  }

  /** Retagging twice in the same direction is retagging once (a tag listed twice in
      `tag_choices` is handled once). */
  lemma RetagTwice(members: seq<string>, name: string, on: bool)
    requires Sorted(members) && NoDups(members)
    ensures Retag(Retag(members, name, on), name, on) == Retag(members, name, on)
  {
    RetagSpec(members, name, on);
  }

  /** `after` is `before` with every tag of `tags` retagged for `name`. */
  ghost predicate RetaggedFor(before: map<string, seq<string>>, after: map<string, seq<string>>,
                              tags: seq<string>, name: string, newTags: seq<string>)
  {
    after.Keys == before.Keys
    && forall t :: t in after ==>
      after[t] == if t in tags then Retag(before[t], name, t in newTags) else before[t]
  }

  /** One pass of the loop of `set_name_tags`: retagging the next tag extends the prefix of
      tags handled; a tag listed twice is retagged the second time to the same list. */
  lemma RetagStep(before: map<string, seq<string>>, cur: map<string, seq<string>>,
                  tags: seq<string>, n: nat, name: string, newTags: seq<string>)
    requires forall t :: t in before ==> Sorted(before[t]) && NoDups(before[t])
    requires n < |tags| && tags[n] in before
    requires RetaggedFor(before, cur, tags[..n], name, newTags)
    ensures RetaggedFor(before, cur[tags[n] := Retag(cur[tags[n]], name, tags[n] in newTags)],
                        tags[..n + 1], name, newTags)
  {
    var t := tags[n];
    var on := t in newTags;
    var next := cur[t := Retag(cur[t], name, on)];
    PrefixMembers(tags, n);
    assert next[t] == Retag(before[t], name, on) by {
      if t in tags[..n] {
        RetagTwice(before[t], name, on);
      }
    }
    forall u | u in next && u != t
      ensures next[u] == if u in tags[..n + 1] then Retag(before[u], name, u in newTags) else before[u]
    {
      assert (u in tags[..n + 1]) == (u in tags[..n]);
    }
  }

  /** The tags handled after one more pass: those handled before and the next one. */
  lemma PrefixMembers(tags: seq<string>, n: nat)
    requires n < |tags|
    ensures forall u :: u in tags[..n + 1] <==> u in tags[..n] || u == tags[n]
  {
    assert tags[..n + 1] == tags[..n] + [tags[n]];
  }

  /** What the loop of `set_name_tags` achieves, over all tags: the member lists stay sorted and
      free of duplicates, `name` belongs exactly to the listed tags that are in `newTags`, and
      every other name keeps its tags. */
  lemma SetTagsEffect(before: map<string, seq<string>>, after: map<string, seq<string>>,
                      tags: seq<string>, name: string, newTags: seq<string>)
    requires forall t :: t in before ==> Sorted(before[t]) && NoDups(before[t])
    requires RetaggedFor(before, after, tags, name, newTags)
    ensures forall t :: t in after ==> Sorted(after[t]) && NoDups(after[t])
    ensures forall t :: t in tags && t in after ==> (name in after[t] <==> t in newTags)
    ensures forall t, m :: t in after && m != name ==> (m in after[t] <==> m in before[t])
  {
    forall t | t in after
      ensures Sorted(after[t]) && NoDups(after[t])
      ensures t in tags ==> (name in after[t] <==> t in newTags)
      ensures forall m :: m != name ==> (m in after[t] <==> m in before[t])
    {
      RetagSpec(before[t], name, t in newTags);
    }
  }

  /** The words a file name must contain, from a typed name: stripped and lower-cased. */
  function SearchKey(text: string): (r: string)
    ensures IsLower(r) && Stripped(r)
  {
    Lower(Strip(text))
  }

  function MatchesKey(key: string): string -> bool {
    f => Contains(Lower(f), key)
  }

  /** The files whose lower-cased name contains `key`, in file order. */
  function Matches(files: seq<string>, key: string): (r: seq<string>)
    ensures forall f :: f in r <==> f in files && Contains(Lower(f), key)
  {
    Filter(files, MatchesKey(key))
  }

  /** No file before position `i` matches `key`. */
  predicate NoMatchBefore(files: seq<string>, i: int, key: string) {
    forall j :: 0 <= j < i && j < |files| ==> !Contains(Lower(files[j]), key)
  }

  /** The first file whose lower-cased name contains `key`, if any. */
  function FirstMatch(files: seq<string>, key: string): (r: Option<string>)
    ensures r.Some? ==> r.value in files && Contains(Lower(r.value), key)
    ensures r.None? ==> forall f :: f in files ==> !Contains(Lower(f), key)
    ensures r.Some? ==> exists i :: 0 <= i < |files| && files[i] == r.value && NoMatchBefore(files, i, key)
  {
    if files == [] then None
    else if Contains(Lower(files[0]), key) then Some(files[0])
    else
      assert forall f :: f in files ==> f == files[0] || f in files[1..];
      var r := FirstMatch(files[1..], key);
      assert r.Some? ==> exists i :: 0 <= i < |files| && files[i] == r.value && NoMatchBefore(files, i, key) by {
        if r.Some? {
          var i :| 0 <= i < |files[1..]| && files[1..][i] == r.value && NoMatchBefore(files[1..], i, key);
          assert files[i + 1] == r.value;
          assert forall j :: 1 <= j < i + 1 ==> files[j] == files[1..][j - 1];
          assert NoMatchBefore(files, i + 1, key);
        }
      }
      r
  }

  /** The first match is the head of the list of all matches: `find_image_filename` and
      `get_assorted_filenames` agree. */
  lemma {:induction false} FirstMatchIsFirstOfMatches(files: seq<string>, key: string)
    ensures FirstMatch(files, key) == if Matches(files, key) == [] then None else Some(Matches(files, key)[0])
  {
    if files != [] {
      FirstMatchIsFirstOfMatches(files[1..], key);
    }
  }

  /** One step of the scan for the first match. */
  lemma FirstMatchStep(files: seq<string>, i: nat, key: string)
    requires i < |files|
    ensures FirstMatch(files[i..], key)
      == if Contains(Lower(files[i]), key) then Some(files[i]) else FirstMatch(files[i + 1..], key)
  {
    assert files[i..][0] == files[i];
    assert files[i..][1..] == files[i + 1..];
  }

  /** What `find_image_filename(subfolder, name)` returns, given the catalog's image lists. */
  function ImageLookup(imageFiles: map<string, seq<string>>, subfolder: string, name: string): (r: Option<string>)
    ensures r.Some? ==>
      SearchKey(name) != "" && subfolder != "" && subfolder in imageFiles
      && r.value in imageFiles[subfolder] && Contains(Lower(r.value), SearchKey(name))
    ensures r.None? <==>
      SearchKey(name) == "" || subfolder == "" || subfolder !in imageFiles
      || forall f :: f in imageFiles[subfolder] ==> !Contains(Lower(f), SearchKey(name))
  {
    var key := SearchKey(name);
    if key == "" || subfolder == "" || subfolder !in imageFiles then None
    else FirstMatch(imageFiles[subfolder], key)
  }

  /** What `get_assorted_filenames(name)` returns, given the assorted file list. */
  function AssortedLookup(assorted: seq<string>, name: string): (r: seq<string>)
    ensures forall f :: f in r <==> SearchKey(name) != "" && f in assorted && Contains(Lower(f), SearchKey(name))
    ensures |r| <= |assorted|
  {
    var key := SearchKey(name);
    if key == "" then [] else Matches(assorted, key)
  }

  /** The new `default_name_indexes` after a name at `index` is selected: remembered for the
      selected list, if there is one. */
  function Remember(defaults: map<string, int>, listIndex: int, list: string, index: int): map<string, int> {
    if listIndex != -1 then defaults[list := index] else defaults
  }

  // ---------------------------------------------------------------------------------------
  // Loops of the constructor and of `select_list`
  // ---------------------------------------------------------------------------------------

  /** The constructor's loop over the image folders: each folder's file list, sorted. */
  method LoadImageLists(subfolders: seq<string>, folderFiles: map<string, seq<string>>)
    returns (files: map<string, seq<string>>)
    ensures forall s :: s in files <==> s in subfolders
    ensures forall s :: s in files ==> files[s] == SortStrings(ContentsOf(folderFiles, s)) && Sorted(files[s])
  {
    files := map[];
    for i := 0 to |subfolders|
      invariant forall s :: s in files <==> s in subfolders[..i]
      invariant forall s :: s in files ==> files[s] == SortStrings(ContentsOf(folderFiles, s))
    {
      PrefixMembers(subfolders, i);
      var fileList := ContentsOf(folderFiles, subfolders[i]);
      fileList := SortStrings(fileList);
      files := files[subfolders[i] := fileList];
    }
    assert subfolders[..|subfolders|] == subfolders;
  }

  /** The constructor's loop over the tags: each tag file loaded with `process=True`, so
      every member list is sorted and free of duplicates. */
  method LoadTagData(tags: seq<string>, tagLines: map<string, seq<string>>)
    returns (data: map<string, seq<string>>)
    ensures forall t :: t in data <==> t in tags
    ensures forall t :: t in data ==> data[t] == Loaded(ContentsOf(tagLines, t), true, false)
    ensures forall t :: t in data ==> Sorted(data[t]) && NoDups(data[t])
  {
    data := map[];
    for i := 0 to |tags|
      invariant forall t :: t in data <==> t in tags[..i]
      invariant forall t :: t in data ==> data[t] == Loaded(ContentsOf(tagLines, t), true, false)
    {
      PrefixMembers(tags, i);
      var members := LoadStringList(ContentsOf(tagLines, tags[i]), true, false);
      data := data[tags[i] := members];
    }
    assert tags[..|tags|] == tags;
  }

  /** The loop of `select_list` for a tag: the names, in name order, that the tag's member
      list holds. */
  method CollectMembers(names: seq<string>, members: seq<string>) returns (choices: seq<string>)
    ensures choices == Members(names, members)
    ensures forall n :: n in choices <==> n in names && n in members
  {
    choices := [];
    for n := 0 to |names|
      invariant choices == Members(names[..n], members)
    {
      var name := names[n];
      if name in members {
        choices := choices + [name];
      }
      FilterPrefix(names, n, InPool(members));
    }
    assert names[..|names|] == names;
  }

  /** What the constructor reads from the data folder, loaded and sorted. */
  datatype Library = Library(
    templates: seq<string>, subfolders: seq<string>, imageFiles: map<string, seq<string>>,
    assorted: seq<string>, tags: seq<string>, tagData: map<string, seq<string>>, names: seq<string>)

  /** `lib` is what the constructor makes of these files and folders. */
  ghost predicate LoadedFrom(lib: Library, nameLines: seq<string>, templateLines: seq<string>,
                             tagNames: seq<string>, tagLines: map<string, seq<string>>,
                             imageSubfolders: seq<string>, folderFiles: map<string, seq<string>>,
                             assortedFiles: seq<string>)
  {
    lib.names == Loaded(nameLines, true, false)
    && lib.templates == Loaded(templateLines, false, false)
    && lib.tags == SortStrings(tagNames)
    && (forall t :: t in lib.tagData <==> t in tagNames)
    && (forall t :: t in lib.tagData ==> lib.tagData[t] == Loaded(ContentsOf(tagLines, t), true, false))
    && lib.subfolders == SortStrings(imageSubfolders)
    && (forall s :: s in lib.imageFiles <==> s in imageSubfolders)
    && (forall s :: s in lib.imageFiles ==> lib.imageFiles[s] == SortStrings(ContentsOf(folderFiles, s)))
    && lib.assorted == (if ShowAssorted || HtmlAddAssorted then assortedFiles else [])
  }

  /** The facts about loaded lists the engine's invariant relies on. */
  ghost predicate WellFormed(lib: Library) {
    (forall t :: t in lib.tags ==> t in lib.tagData)
    && (forall t :: t in lib.tagData ==> Sorted(lib.tagData[t]) && NoDups(lib.tagData[t]))
    && Sorted(lib.names) && NoDups(lib.names)
    && (forall n :: n in lib.names ==> n != "" && IsLower(n))
    && (forall x :: x in lib.templates ==> x != "")
  }

  /** Every list membership a sorted copy keeps. */
  lemma SortStringsMembers(s: seq<string>)
    ensures forall x :: x in SortStrings(s) <==> x in s
  {
    assert forall x :: x in s <==> x in multiset(s);
    assert forall x :: x in SortStrings(s) <==> x in multiset(SortStrings(s));
  }

  /** The loading half of the constructor: every list read, cleaned and sorted. */
  method LoadLibrary(nameLines: seq<string>, templateLines: seq<string>,
                     tagNames: seq<string>, tagLines: map<string, seq<string>>,
                     imageSubfolders: seq<string>, folderFiles: map<string, seq<string>>,
                     assortedFiles: seq<string>)
    returns (lib: Library)
    ensures LoadedFrom(lib, nameLines, templateLines, tagNames, tagLines, imageSubfolders, folderFiles, assortedFiles)
    ensures WellFormed(lib)
  {
    var subfolders := SortStrings(imageSubfolders);
    SortStringsMembers(imageSubfolders);
    var files := LoadImageLists(subfolders, folderFiles);
    var tags := SortStrings(tagNames);
    SortStringsMembers(tagNames);
    var data := LoadTagData(tags, tagLines);
    var names := LoadStringList(nameLines, true, false);
    LoadedProcessed(nameLines, false);
    var templates := LoadStringList(templateLines, false, false);
    var assorted := if ShowAssorted || HtmlAddAssorted then assortedFiles else [];
    lib := Library(templates, subfolders, files, assorted, tags, data, names);
  }

  /** The loop of `set_name_tags`: for each tag in turn, when its list's membership of `name`
      differs from whether the tag is in `newTags`, the name is appended or removed and the
      list sorted again. */
  method RetagAll(data: map<string, seq<string>>, tags: seq<string>, name: string, newTags: seq<string>)
    returns (after: map<string, seq<string>>)
    requires forall t :: t in tags ==> t in data
    requires forall t :: t in data ==> Sorted(data[t]) && NoDups(data[t])
    ensures RetaggedFor(data, after, tags, name, newTags)
  {
    after := data;
    for n := 0 to |tags|
      invariant RetaggedFor(data, after, tags[..n], name, newTags)
    {
      var tagName := tags[n];
      var members := after[tagName];
      var oldChecked := name in members;
      var newChecked := tagName in newTags;
      RetagStep(data, after, tags, n, name, newTags);
      if oldChecked != newChecked {
        if newChecked {
          members := members + [name];
        } else {
          members := RemoveFirst(members, name);
        }
        members := SortStrings(members);
        after := after[tagName := members];
      } else {
        assert after == after[tagName := members];
      }
    }
    assert tags[..|tags|] == tags;
  }

  // ---------------------------------------------------------------------------------------
  // The engine
  // ---------------------------------------------------------------------------------------

  class AuEngine {
    var templateChoices: seq<string>
    var imageSubfolderChoices: seq<string>
    var imageFiles: map<string, seq<string>>
    var assortedImages: seq<string>
    var tagChoices: seq<string>
    var tagData: map<string, seq<string>>
    var allNames: seq<string>
    var listChoices: seq<string>
    var selectedList: string
    var selectedListIndex: int
    var nameChoices: seq<string>
    var selectedName: string
    var selectedNameIndex: int
    var defaultNameIndexes: map<string, int>

    /** The catalog's invariant. */
    ghost predicate Valid()
      reads this
    {
      listChoices == [SpecialAll, SpecialNoTag] + tagChoices
      && (forall t :: t in tagChoices ==> t in tagData)
      && (forall t :: t in tagData ==> Sorted(tagData[t]) && NoDups(tagData[t]))
      && Sorted(allNames) && NoDups(allNames)
      && (forall n :: n in allNames ==> n != "" && IsLower(n))
      && (forall x :: x in templateChoices ==> x != "")
      && NoDups(nameChoices) && (forall n :: n in nameChoices ==> n in allNames)
      && ((selectedListIndex == -1 && selectedList == "")
          || (0 <= selectedListIndex < |listChoices| && selectedList == listChoices[selectedListIndex]))
      && ((selectedNameIndex == -1 && selectedName == "")
          || (0 <= selectedNameIndex < |nameChoices| && selectedName == nameChoices[selectedNameIndex]))
    }

    /** `AuEngine(data_folder)` after the folders have been scanned and the files read:
        `nameLines` are the lines of names.txt, `templateLines` those of templates.txt,
        `tagNames` the tag files found (without `.txt`) and `tagLines` their lines,
        `imageSubfolders` the image folders found and `folderFiles` the files in each, and
        `assortedFiles` the files in the assorted folder. */
    constructor (nameLines: seq<string>, templateLines: seq<string>,
                 tagNames: seq<string>, tagLines: map<string, seq<string>>,
                 imageSubfolders: seq<string>, folderFiles: map<string, seq<string>>,
                 assortedFiles: seq<string>)
      ensures Valid()
      ensures LoadedFrom(Library(templateChoices, imageSubfolderChoices, imageFiles, assortedImages,
                                 tagChoices, tagData, allNames),
                         nameLines, templateLines, tagNames, tagLines, imageSubfolders, folderFiles, assortedFiles)
      ensures selectedList == "" && selectedListIndex == -1
      ensures nameChoices == [] && selectedName == "" && selectedNameIndex == -1
      ensures defaultNameIndexes == map[]
    {
      var lib := LoadLibrary(nameLines, templateLines, tagNames, tagLines, imageSubfolders, folderFiles, assortedFiles);
      templateChoices := lib.templates;
      imageSubfolderChoices := lib.subfolders;
      imageFiles := lib.imageFiles;
      assortedImages := lib.assorted;
      tagChoices := lib.tags;
      tagData := lib.tagData;
      allNames := lib.names;
      listChoices := [SpecialAll, SpecialNoTag] + lib.tags;
      selectedList := "";
      selectedListIndex := -1;
      nameChoices := [];
      selectedName := "";
      selectedNameIndex := -1;
      defaultNameIndexes := map[];
    }

    /** `select_list(item)`: an item that is not one of `list_choices` clears the whole
        selection; otherwise the item becomes the selected list (at its first position), its
        names become `name_choices`, and no name is selected. */
    method SelectList(item: string)
      requires Valid()
      modifies this`selectedList, this`selectedListIndex, this`nameChoices, this`selectedName, this`selectedNameIndex
      ensures Valid()
      ensures item !in listChoices ==> selectedList == "" && selectedListIndex == -1 && nameChoices == []
      ensures item in listChoices ==>
        selectedList == item && selectedListIndex == IndexOf(listChoices, item)
        && nameChoices == ListNames(item, allNames, tagChoices, tagData)
      ensures selectedName == "" && selectedNameIndex == -1
    {
      var found := IndexOf(listChoices, item);
      if found == -1 {
        selectedList := "";
        selectedListIndex := -1;
        nameChoices := [];
        selectedName := "";
        selectedNameIndex := -1;
        return;
      }
      var choices := NamesOf(item);
      ShowList(found, choices);
    }

    /** Makes list `index` the selected one, offering `choices` with no name selected
        (`select_name(None)`: None is never among the names). */
    method ShowList(index: int, choices: seq<string>)
      requires Valid() && 0 <= index < |listChoices|
      requires NoDups(choices) && forall n :: n in choices ==> n in allNames
      modifies this`selectedList, this`selectedListIndex, this`nameChoices, this`selectedName, this`selectedNameIndex
      ensures Valid()
      ensures selectedList == listChoices[index] && selectedListIndex == index && nameChoices == choices
      ensures selectedName == "" && selectedNameIndex == -1
    {
      selectedList := listChoices[index];
      selectedListIndex := index;
      nameChoices := choices;
      selectedName := "";
      selectedNameIndex := -1;
    }

    /** The names `select_list` offers for `item`: all names, the uncategorized ones, or the
        names the tag holds, each time in name order. */
    method NamesOf(item: string) returns (choices: seq<string>)
      requires Valid()
      ensures choices == ListNames(item, allNames, tagChoices, tagData)
      ensures NoDups(choices) && forall n :: n in choices ==> n in allNames
    {
      if item == SpecialAll {
        choices := allNames;
      } else if item == SpecialNoTag {
        choices := GetUncategorizedNames();
      } else {
        choices := [];
        if item in tagData {
          choices := CollectMembers(allNames, tagData[item]);
        }
      }
    }

    /** `select_name(item)`: selects `item` when it is one of `name_choices` and remembers
        its position for the selected list, if any; otherwise clears the name selection. */
    method SelectName(item: string)
      requires Valid()
      modifies this`selectedName, this`selectedNameIndex, this`defaultNameIndexes
      ensures Valid()
      ensures item !in nameChoices ==>
        selectedName == "" && selectedNameIndex == -1 && defaultNameIndexes == old(defaultNameIndexes)
      ensures item in nameChoices ==>
        selectedName == item && selectedNameIndex == IndexOf(nameChoices, item)
        && defaultNameIndexes == Remember(old(defaultNameIndexes), selectedListIndex, selectedList, selectedNameIndex)
      ensures item in nameChoices && selectedListIndex != -1 ==> GetDefaultName() == item
    {
      var found := IndexOf(nameChoices, item);
      if found == -1 {
        selectedName := "";
        selectedNameIndex := -1;
        return;
      }
      selectedName := nameChoices[found];
      selectedNameIndex := found;
      if selectedListIndex != -1 {
        defaultNameIndexes := defaultNameIndexes[selectedList := found];
      }
    }

    /** `get_default_template`: the first template, or `''` when there is none. */
    function GetDefaultTemplate(): (r: string)
      reads this
      ensures r == "" || r in templateChoices
      ensures Valid() ==> (r == "" <==> templateChoices == [])
    {
      if |templateChoices| > 0 then
        assert templateChoices[0] in templateChoices;
        templateChoices[0]
      else ""
    }

    /** `get_default_list`: the first list offered, which is always `- All -`. */
    function GetDefaultList(): (r: string)
      reads this
      ensures r == "" || r in listChoices
      ensures Valid() ==> r == SpecialAll
    {
      if |listChoices| > 0 then listChoices[0] else ""
    }

    /** `get_default_name`: the name to show when a list has just been selected. */
    function GetDefaultName(): (r: string)
      reads this
      ensures r == "" || r in nameChoices
      ensures selectedListIndex == -1 ==> r == ""
      ensures selectedListIndex != -1 && selectedList in defaultNameIndexes && defaultNameIndexes[selectedList] != -1
              ==> r == if 0 <= defaultNameIndexes[selectedList] < |nameChoices|
                       then nameChoices[defaultNameIndexes[selectedList]] else ""
      ensures selectedListIndex != -1 && (selectedList !in defaultNameIndexes || defaultNameIndexes[selectedList] == -1)
              ==> r == if nameChoices != [] then nameChoices[0] else ""
    {
      if selectedListIndex == -1 then ""
      else
        var remembered := if selectedList in defaultNameIndexes then defaultNameIndexes[selectedList] else -1;
        var index := if remembered == -1 && |nameChoices| > 0 then 0 else remembered;
        if index < 0 || index >= |nameChoices| then "" else nameChoices[index]
    }

    /** `get_name_tags(name)`. */
    method GetNameTags(name: string) returns (result: seq<string>)
      requires Valid()
      ensures result == NameTags(name, tagChoices, tagData)
      ensures forall t :: t in result <==> name != "" && t in tagChoices && name in tagData[t]
    {
      if name == "" {
        return [];
      }
      result := [];
      for n := 0 to |tagChoices|
        invariant result == Filter(tagChoices[..n], HoldsName(tagData, name))
      {
        var tagName := tagChoices[n];
        var members := tagData[tagName];
        if name in members {
          result := result + [tagName];
        }
        FilterPrefix(tagChoices, n, HoldsName(tagData, name));
      }
      assert tagChoices[..|tagChoices|] == tagChoices;
    }

    /** `set_name_tags(name, new_tags)`: for every tag, in tag order, whose membership of
        `name` differs from whether the tag is in `new_tags`, the name is appended or removed
        and the member list sorted again. Writing the changed tag file is not modelled. */
    method SetNameTags(name: string, newTags: seq<string>)
      requires Valid()
      modifies this`tagData
      ensures Valid()
      ensures tagData.Keys == old(tagData).Keys
      ensures forall t :: t in tagData ==>
        tagData[t] == if t in tagChoices then Retag(old(tagData)[t], name, t in newTags) else old(tagData)[t]
      ensures forall t :: t in tagChoices ==> (name in tagData[t] <==> t in newTags)
      ensures forall t, m :: t in tagData && m != name ==> (m in tagData[t] <==> m in old(tagData)[t])
    {
      tagData := RetagAll(tagData, tagChoices, name, newTags);
      SetTagsEffect(old(tagData), tagData, tagChoices, name, newTags);
    }

    /** `get_uncategorized_names()`: for each name, a scan of the tags that stops at the first
        one holding it; the names no tag holds are collected. */
    method GetUncategorizedNames() returns (result: seq<string>)
      requires Valid()
      ensures result == Uncategorized(allNames, tagChoices, tagData)
    {
      result := [];
      for n := 0 to |allNames|
        invariant result == Filter(allNames[..n], IsUntagged(tagChoices, tagData))
      {
        var name := allNames[n];
        var found := false;
        var i := 0;
        while i < |tagChoices| && !found
          invariant 0 <= i <= |tagChoices|
          invariant found <==> exists k :: 0 <= k < i && name in tagData[tagChoices[k]]
        {
          var members := tagData[tagChoices[i]];
          if name in members {
            found := true;
          }
          i := i + 1;
        }
        assert found <==> HasTag(name, tagChoices, tagData) by {
          if HasTag(name, tagChoices, tagData) {
            var t :| t in tagChoices && Tagged(tagData, t, name);
            var k :| 0 <= k < |tagChoices| && tagChoices[k] == t;
          }
        }
        if !found {
          result := result + [name];
        }
        FilterPrefix(allNames, n, IsUntagged(tagChoices, tagData));
      }
      assert allNames[..|allNames|] == allNames;
    }

    /** `find_image_filename(subfolder, name)`: the first file of the image folder whose
        lower-cased name contains the stripped, lower-cased `name`. */
    method FindImageFilename(subfolder: string, name: string) returns (result: Option<string>)
      ensures result == ImageLookup(imageFiles, subfolder, name)
      ensures result.Some? ==>
        subfolder != "" && subfolder in imageFiles && result.value in imageFiles[subfolder]
        && SearchKey(name) != "" && Contains(Lower(result.value), SearchKey(name))
      ensures result.None? <==>
        SearchKey(name) == "" || subfolder == "" || subfolder !in imageFiles
        || Matches(imageFiles[subfolder], SearchKey(name)) == []
    {
      var key := SearchKey(name);
      if key == "" || subfolder == "" {
        return None;
      }
      if subfolder !in imageFiles {
        return None;
      }
      var files := imageFiles[subfolder];
      FirstMatchIsFirstOfMatches(files, key);
      result := None;
      var i := 0;
      while i < |files|
        invariant 0 <= i <= |files|
        invariant FirstMatch(files[i..], key) == FirstMatch(files, key)
      {
        FirstMatchStep(files, i, key);
        if Contains(Lower(files[i]), key) {
          result := Some(files[i]);
          break;
        }
        i := i + 1;
      }
    }

    /** `get_assorted_filenames(name)`: every assorted file whose lower-cased name contains the
        stripped, lower-cased `name`, in order. */
    method GetAssortedFilenames(name: string) returns (result: seq<string>)
      ensures result == AssortedLookup(assortedImages, name)
      ensures forall f :: f in result <==> SearchKey(name) != "" && f in assortedImages && Contains(Lower(f), SearchKey(name))
    {
      var key := SearchKey(name);
      if key == "" {
        return [];
      }
      result := [];
      for i := 0 to |assortedImages|
        invariant result == Matches(assortedImages[..i], key)
      {
        var fileName := assortedImages[i];
        if Contains(Lower(fileName), key) {
          result := result + [fileName];
        }
        FilterPrefix(assortedImages, i, MatchesKey(key));
      }
      assert assortedImages[..|assortedImages|] == assortedImages;
    }
  }
}
