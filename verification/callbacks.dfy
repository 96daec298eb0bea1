/** The engine-side logic of the UI actions of scripts/artist_util.py: switching list, moving
    to the previous or next name, finding a name by substring, retagging the selected name
    and generating one prompt per listed name. The Gradio update objects are reduced to the
    values they carry: `None` stands for an update that leaves a widget as it is. */
module Callbacks {
  import opened Wrappers
  import opened Strings
  import opened Lists
  import opened Catalog

  // ---------------------------------------------------------------------------------------
  // Switching list and moving between names
  // ---------------------------------------------------------------------------------------

  /** `do_list_selector_change(item)`: selects the list, then the name remembered for it (or
      the first one). Returns the tags of the name now selected. */
  method ChangeList(au: AuEngine, item: string) returns (tags: seq<string>)
    requires au.Valid()
    modifies au`selectedList, au`selectedListIndex, au`nameChoices, au`selectedName,
             au`selectedNameIndex, au`defaultNameIndexes
    ensures au.Valid()
    ensures item !in au.listChoices ==>
      au.selectedListIndex == -1 && au.nameChoices == [] && au.selectedNameIndex == -1
      && au.defaultNameIndexes == old(au.defaultNameIndexes)
    ensures item in au.listChoices ==>
      au.selectedList == item && au.selectedListIndex == IndexOf(au.listChoices, item)
      && au.nameChoices == ListNames(item, au.allNames, au.tagChoices, au.tagData)
    ensures item in au.listChoices && item in old(au.defaultNameIndexes) && old(au.defaultNameIndexes)[item] != -1 ==>
      au.selectedNameIndex == (if 0 <= old(au.defaultNameIndexes)[item] < |au.nameChoices|
                               then old(au.defaultNameIndexes)[item] else -1)
    ensures item in au.listChoices && (item !in old(au.defaultNameIndexes) || old(au.defaultNameIndexes)[item] == -1) ==>
      au.selectedNameIndex == (if au.nameChoices != [] then 0 else -1)
    ensures item in au.listChoices ==>
      au.defaultNameIndexes == if au.selectedNameIndex != -1 then old(au.defaultNameIndexes)[item := au.selectedNameIndex]
                               else old(au.defaultNameIndexes)
    ensures au.selectedNameIndex != -1 ==> au.selectedName == au.nameChoices[au.selectedNameIndex]
    ensures tags == NameTags(au.selectedName, au.tagChoices, au.tagData)
  {
    au.SelectList(item);
    SelectDefaultName(au);
    tags := au.GetNameTags(au.selectedName);
  }

  /** `select_name(get_default_name())`: with a list selected, the remembered position when
      there is one (nothing when it is out of range), else the first name; with none, no
      name. A selected position is remembered again for the list. */
  method SelectDefaultName(au: AuEngine)
    requires au.Valid()
    modifies au`selectedName, au`selectedNameIndex, au`defaultNameIndexes
    ensures au.Valid()
    ensures au.selectedListIndex == -1 ==> au.selectedNameIndex == -1
    ensures au.selectedListIndex != -1 && au.selectedList in old(au.defaultNameIndexes)
            && old(au.defaultNameIndexes)[au.selectedList] != -1 ==>
      au.selectedNameIndex == (if 0 <= old(au.defaultNameIndexes)[au.selectedList] < |au.nameChoices|
                               then old(au.defaultNameIndexes)[au.selectedList] else -1)
    ensures au.selectedListIndex != -1 && (au.selectedList !in old(au.defaultNameIndexes)
            || old(au.defaultNameIndexes)[au.selectedList] == -1) ==>
      au.selectedNameIndex == (if au.nameChoices != [] then 0 else -1)
    ensures au.defaultNameIndexes == if au.selectedNameIndex != -1
                                     then old(au.defaultNameIndexes)[au.selectedList := au.selectedNameIndex]
                                     else old(au.defaultNameIndexes)
    ensures au.selectedNameIndex != -1 ==> au.selectedName == au.nameChoices[au.selectedNameIndex]
  {
    var name := au.GetDefaultName();
    // The position `get_default_name` picks: the remembered one, else the first.
    ghost var choices := au.nameChoices;
    ghost var k := -1;
    if au.selectedListIndex != -1 {
      ghost var list := au.selectedList;
      ghost var remembered := if list in au.defaultNameIndexes then au.defaultNameIndexes[list] else -1;
      k := if remembered == -1 && |choices| > 0 then 0 else remembered;
    }
    if 0 <= k < |choices| {
      assert name == choices[k];
      IndexOfNoDups(choices, k);
    } else {
      assert name == "" && "" !in choices;
    }
    au.SelectName(name);
    assert au.selectedNameIndex == if 0 <= k < |choices| then k else -1;
  }

  /** `do_name_selector_change(item)`: selects the name and returns its tags. */
  method ChangeName(au: AuEngine, item: string) returns (tags: seq<string>)
    requires au.Valid()
    modifies au`selectedName, au`selectedNameIndex, au`defaultNameIndexes
    ensures au.Valid()
    ensures item in au.nameChoices ==>
      au.selectedName == item && au.selectedNameIndex == IndexOf(au.nameChoices, item)
      && au.defaultNameIndexes == Remember(old(au.defaultNameIndexes), au.selectedListIndex, au.selectedList, au.selectedNameIndex)
    ensures item !in au.nameChoices ==>
      au.selectedName == "" && au.selectedNameIndex == -1 && au.defaultNameIndexes == old(au.defaultNameIndexes)
    ensures tags == NameTags(au.selectedName, au.tagChoices, au.tagData)
  {
    au.SelectName(item);
    tags := au.GetNameTags(au.selectedName);
  }

  /** The index a step of `delta` from `index` leads to, or `None` when it would leave the list
      (`do_prev_name_button_click` steps by -1, `do_next_name_button_click` by +1). */
  function Step(index: int, delta: int, count: nat): Option<nat> {
    if 0 <= index + delta < count then Some(index + delta) else None
  }

  /** The two navigation buttons: when the step stays inside `name_choices`, the name there is
      selected and the new dropdown value and its tags are returned; otherwise nothing changes
      and both widgets are left as they are. */
  method MoveName(au: AuEngine, delta: int) returns (shown: Option<string>, tags: Option<seq<string>>)
    requires au.Valid()
    modifies au`selectedName, au`selectedNameIndex, au`defaultNameIndexes
    ensures au.Valid()
    ensures Step(old(au.selectedNameIndex), delta, |au.nameChoices|).None? ==>
      shown.None? && tags.None? && au.selectedName == old(au.selectedName)
      && au.selectedNameIndex == old(au.selectedNameIndex) && au.defaultNameIndexes == old(au.defaultNameIndexes)
    ensures Step(old(au.selectedNameIndex), delta, |au.nameChoices|).Some? ==>
      au.selectedNameIndex == old(au.selectedNameIndex) + delta
      && au.selectedName == au.nameChoices[au.selectedNameIndex]
      && au.defaultNameIndexes == Remember(old(au.defaultNameIndexes), au.selectedListIndex, au.selectedList, au.selectedNameIndex)
      && shown == Some(au.selectedName) && tags == Some(NameTags(au.selectedName, au.tagChoices, au.tagData))
  {
    var target := au.selectedNameIndex + delta;
    if target < 0 || target >= |au.nameChoices| {
      return None, None;
    }
    IndexOfNoDups(au.nameChoices, target);
    au.SelectName(au.nameChoices[target]);
    var t := au.GetNameTags(au.selectedName);
    shown, tags := Some(au.selectedName), Some(t);
  }

  /** `do_prev_name_button_click()`. */
  method PrevName(au: AuEngine) returns (shown: Option<string>, tags: Option<seq<string>>)
    requires au.Valid()
    modifies au`selectedName, au`selectedNameIndex, au`defaultNameIndexes
    ensures au.Valid()
    ensures old(au.selectedNameIndex) - 1 < 0 ==>
      shown.None? && tags.None? && au.selectedName == old(au.selectedName)
      && au.selectedNameIndex == old(au.selectedNameIndex) && au.defaultNameIndexes == old(au.defaultNameIndexes)
    ensures old(au.selectedNameIndex) - 1 >= 0 ==>
      au.selectedNameIndex == old(au.selectedNameIndex) - 1
      && au.selectedName == au.nameChoices[au.selectedNameIndex]
      && au.defaultNameIndexes == Remember(old(au.defaultNameIndexes), au.selectedListIndex, au.selectedList, au.selectedNameIndex)
      && shown == Some(au.selectedName) && tags == Some(NameTags(au.selectedName, au.tagChoices, au.tagData))
  {
    shown, tags := MoveName(au, -1);
  }

  /** `do_next_name_button_click()`: from no selection (-1) it moves to the first name. */
  method NextName(au: AuEngine) returns (shown: Option<string>, tags: Option<seq<string>>)
    requires au.Valid()
    modifies au`selectedName, au`selectedNameIndex, au`defaultNameIndexes
    ensures au.Valid()
    ensures old(au.selectedNameIndex) + 1 >= |au.nameChoices| ==>
      shown.None? && tags.None? && au.selectedName == old(au.selectedName)
      && au.selectedNameIndex == old(au.selectedNameIndex) && au.defaultNameIndexes == old(au.defaultNameIndexes)
    ensures old(au.selectedNameIndex) + 1 < |au.nameChoices| ==>
      au.selectedNameIndex == old(au.selectedNameIndex) + 1
      && au.selectedName == au.nameChoices[au.selectedNameIndex]
      && au.defaultNameIndexes == Remember(old(au.defaultNameIndexes), au.selectedListIndex, au.selectedList, au.selectedNameIndex)
      && shown == Some(au.selectedName) && tags == Some(NameTags(au.selectedName, au.tagChoices, au.tagData))
  {
    shown, tags := MoveName(au, 1);
  }

  /** Pressing next and then previous: when next moves from a selected name, previous brings
      the selection back to that name, and the list remembers it again. */
  method NextThenPrev(au: AuEngine)
    requires au.Valid()
    modifies au`selectedName, au`selectedNameIndex, au`defaultNameIndexes
    ensures au.Valid()
    ensures 0 <= old(au.selectedNameIndex) && old(au.selectedNameIndex) + 1 < |au.nameChoices| ==>
      au.selectedName == old(au.selectedName) && au.selectedNameIndex == old(au.selectedNameIndex)
      && au.defaultNameIndexes == Remember(old(au.defaultNameIndexes), au.selectedListIndex, au.selectedList, au.selectedNameIndex)
  {
    var _, _ := NextName(au);
    var _, _ := PrevName(au);
  }

  // ---------------------------------------------------------------------------------------
  // Finding a name
  // ---------------------------------------------------------------------------------------

  /** The first position at or after `from` whose name contains `key`, or -1. */
  function FirstContaining(names: seq<string>, key: string, from: nat): (r: int)
    requires from <= |names|
    ensures r == -1 || (from <= r < |names| && Contains(names[r], key))
    ensures r == -1 ==> forall k :: from <= k < |names| ==> !Contains(names[k], key)
    ensures r != -1 ==> forall k :: from <= k < r ==> !Contains(names[k], key)
    decreases |names| - from
  {
    if from == |names| then -1
    else if Contains(names[from], key) then from
    else FirstContaining(names, key, from + 1)
  }

  /** The search loop of the find buttons: scans `names` from `from` and stops at the first
      name containing `key`. */
  method SearchNames(names: seq<string>, key: string, from: nat) returns (found: int)
    requires from <= |names|
    ensures found == FirstContaining(names, key, from)
  {
    found := -1;
    var n := from;
    while n < |names|
      invariant from <= n <= |names|
      invariant FirstContaining(names, key, n) == FirstContaining(names, key, from)
    {
      if Contains(names[n], key) {
        found := n;
        break;
      }
      n := n + 1;
    }
  }

  /** `do_find_first_button_click(text)`: with a blank search nothing changes; when no name
      contains it the dropdown is blanked (the engine's selection stays); when the first
      match is already selected nothing changes; otherwise the first match is selected. */
  method FindFirst(au: AuEngine, text: string) returns (shown: Option<string>, tags: Option<seq<string>>)
    requires au.Valid()
    modifies au`selectedName, au`selectedNameIndex, au`defaultNameIndexes
    ensures au.Valid()
    ensures var f := FirstContaining(au.nameChoices, SearchKey(text), 0);
      if SearchKey(text) == "" || (f != -1 && au.nameChoices[f] == old(au.selectedName)) then
        shown.None? && tags.None? && au.selectedName == old(au.selectedName)
        && au.selectedNameIndex == old(au.selectedNameIndex) && au.defaultNameIndexes == old(au.defaultNameIndexes)
      else if f == -1 then
        shown == Some("") && tags == Some([]) && au.selectedName == old(au.selectedName)
        && au.selectedNameIndex == old(au.selectedNameIndex) && au.defaultNameIndexes == old(au.defaultNameIndexes)
      else
        au.selectedNameIndex == f && au.selectedName == au.nameChoices[f]
        && au.defaultNameIndexes == Remember(old(au.defaultNameIndexes), au.selectedListIndex, au.selectedList, f)
        && shown == Some(au.selectedName) && tags == Some(NameTags(au.selectedName, au.tagChoices, au.tagData))
  {
    var key := SearchKey(text);
    if key == "" {
      return None, None;
    }
    var found := SearchNames(au.nameChoices, key, 0);
    if found == -1 {
      return Some(""), Some([]);
    }
    if au.nameChoices[found] == au.selectedName {
      return None, None;
    }
    IndexOfNoDups(au.nameChoices, found);
    au.SelectName(au.nameChoices[found]);
    var t := au.GetNameTags(au.selectedName);
    shown, tags := Some(au.selectedName), Some(t);
  }

  /** `do_find_next_button_click(text)`: the first match after the selected name (from the
      start when none is selected) is selected; with a blank search or no such match nothing
      changes. */
  method FindNext(au: AuEngine, text: string) returns (shown: Option<string>, tags: Option<seq<string>>)
    requires au.Valid()
    modifies au`selectedName, au`selectedNameIndex, au`defaultNameIndexes
    ensures au.Valid()
    ensures var f := FirstContaining(au.nameChoices, SearchKey(text), old(au.selectedNameIndex) + 1);
      if SearchKey(text) == "" || f == -1 then
        shown.None? && tags.None? && au.selectedName == old(au.selectedName)
        && au.selectedNameIndex == old(au.selectedNameIndex) && au.defaultNameIndexes == old(au.defaultNameIndexes)
      else
        old(au.selectedNameIndex) < f && au.selectedNameIndex == f && au.selectedName == au.nameChoices[f]
        && au.defaultNameIndexes == Remember(old(au.defaultNameIndexes), au.selectedListIndex, au.selectedList, f)
        && shown == Some(au.selectedName) && tags == Some(NameTags(au.selectedName, au.tagChoices, au.tagData))
  {
    var key := SearchKey(text);
    if key == "" {
      return None, None;
    }
    var found := SearchNames(au.nameChoices, key, au.selectedNameIndex + 1);
    if found == -1 {
      return None, None;
    }
    IndexOfNoDups(au.nameChoices, found);
    au.SelectName(au.nameChoices[found]);
    var t := au.GetNameTags(au.selectedName);
    shown, tags := Some(au.selectedName), Some(t);
  }

  // ---------------------------------------------------------------------------------------
  // Retagging and prompt generation
  // ---------------------------------------------------------------------------------------

  /** `do_name_tags_change(new_tags)`: retags the selected name; does nothing when no name is
      selected. */
  method ChangeTags(au: AuEngine, newTags: seq<string>)
    requires au.Valid()
    modifies au`tagData
    ensures au.Valid()
    ensures au.tagData.Keys == old(au.tagData).Keys
    ensures au.selectedNameIndex == -1 ==> au.tagData == old(au.tagData)
    ensures au.selectedNameIndex != -1 ==>
      (forall t :: t in au.tagChoices ==> (au.selectedName in au.tagData[t] <==> t in newTags))
      && forall t, m :: t in au.tagData && m != au.selectedName ==> (m in au.tagData[t] <==> m in old(au.tagData)[t])
  {
    if au.selectedNameIndex == -1 {
      return;
    }
    au.SetNameTags(au.selectedName, newTags);
  }

  /** A name is skipped when one of its tags is among `skipTags`. */
  predicate Skipped(name: string, tags: seq<string>, data: map<string, seq<string>>, skipTags: seq<string>) {
    exists t :: t in NameTags(name, tags, data) && t in skipTags
  }

  function NotSkipped(tags: seq<string>, data: map<string, seq<string>>, skipTags: seq<string>): string -> bool {
    n => !Skipped(n, tags, data, skipTags)
  }

  /** The names prompts are generated for: those not skipped, in list order. */
  function Kept(names: seq<string>, tags: seq<string>, data: map<string, seq<string>>, skipTags: seq<string>): (r: seq<string>)
    ensures |r| <= |names|
    ensures forall n :: n in r <==> n in names && !Skipped(n, tags, data, skipTags)
    ensures skipTags == [] ==> r == names
  {
    FilterPreserves(names, NotSkipped(tags, data, skipTags));
    Filter(names, NotSkipped(tags, data, skipTags))
  }

  /** The prompt for one name: `NAME` replaced by the name, then `PROMPT` by the prompt text,
      then any `NAME` the prompt text brought in replaced as well. */
  function Fill(template: string, prompt: string, name: string): (r: string)
    ensures !Contains(template, "NAME") && !Contains(template, "PROMPT") ==> r == template
  {
    ReplaceAll(ReplaceAll(ReplaceAll(template, "NAME", name), "PROMPT", prompt), "NAME", name)
  }

  function FillAll(names: seq<string>, template: string, prompt: string): seq<string> {
    seq(|names|, i requires 0 <= i < |names| => Fill(template, prompt, names[i]))
  }

  lemma FillAllSnoc(names: seq<string>, name: string, template: string, prompt: string)
    ensures FillAll(names + [name], template, prompt) == FillAll(names, template, prompt) + [Fill(template, prompt, name)]
  {
    var a := FillAll(names + [name], template, prompt);
    var b := FillAll(names, template, prompt) + [Fill(template, prompt, name)];
    assert forall i :: 0 <= i < |names| ==> (names + [name])[i] == names[i];
    assert |a| == |b| && forall i :: 0 <= i < |a| ==> a[i] == b[i];
  }

  /** A lower-case text never contains a word that starts with a capital. */
  lemma {:induction false} LowerHasNoCapitalWord(s: string, word: string)
    requires IsLower(s) && |word| > 0 && IsUpper(word[0])
    ensures !Contains(s, word)
    decreases |s|
  {
    if |s| > 0 {
      assert !IsUpper(s[0]);
      assert !(word <= s);
      LowerHasNoCapitalWord(s[1..], word);
    } else {
      assert !(word <= s);
    }
  }

  /** The template `NAME` gives each catalog name (lower-case) unchanged. */
  lemma FillName(prompt: string, name: string)
    requires IsLower(name)
    ensures Fill("NAME", prompt, name) == name
  {
    var placeholder := "NAME";
    assert placeholder <= placeholder && placeholder[|placeholder|..] == [];
    assert ReplaceAll(placeholder, "NAME", name) == name + ReplaceAll([], "NAME", name);
    assert ReplaceAll(placeholder, "NAME", name) == name;
    LowerHasNoCapitalWord(name, "PROMPT");
    LowerHasNoCapitalWord(name, "NAME");
  }

  /** The inner loop of `do_save_button_click`: whether one of `nameTags` is in `skipTags`,
      stopping at the first. */
  method AnyIn(nameTags: seq<string>, skipTags: seq<string>) returns (found: bool)
    ensures found <==> exists t :: t in nameTags && t in skipTags
  {
    found := false;
    var i := 0;
    while i < |nameTags| && !found
      invariant 0 <= i <= |nameTags|
      invariant found <==> exists k :: 0 <= k < i && nameTags[k] in skipTags
    {
      if nameTags[i] in skipTags {
        found := true;
      }
      i := i + 1;
    }
    assert found <==> exists t :: t in nameTags && t in skipTags by {
      if exists t :: t in nameTags && t in skipTags {
        var t :| t in nameTags && t in skipTags;
        var k :| 0 <= k < |nameTags| && nameTags[k] == t;
      }
    }
  }

  /** The loop of `do_save_button_click` over `name_choices`: the prompts for the names kept, in
      list order, and how many names were skipped. Writing `output.txt` and the log is not
      modelled. */
  method SavePrompts(au: AuEngine, template: string, prompt: string, skipTags: seq<string>)
    returns (results: seq<string>, numSkipped: nat)
    requires au.Valid()
    ensures results == FillAll(Kept(au.nameChoices, au.tagChoices, au.tagData, skipTags), template, prompt)
    ensures numSkipped + |results| == |au.nameChoices|
    ensures skipTags == [] ==> numSkipped == 0 && |results| == |au.nameChoices|
  {
    results := [];
    numSkipped := 0;
    ghost var kept: seq<string> := [];
    for n := 0 to |au.nameChoices|
      invariant kept == Kept(au.nameChoices[..n], au.tagChoices, au.tagData, skipTags)
      invariant results == FillAll(kept, template, prompt)
      invariant numSkipped + |kept| == n
    {
      var name := au.nameChoices[n];
      var skip := false;
      if |skipTags| > 0 {
        var nameTags := au.GetNameTags(name);
        skip := AnyIn(nameTags, skipTags);
      }
      FilterPrefix(au.nameChoices, n, NotSkipped(au.tagChoices, au.tagData, skipTags));
      if skip {
        numSkipped := numSkipped + 1;
      } else {
        var text := ReplaceAll(ReplaceAll(template, "NAME", name), "PROMPT", prompt);
        text := ReplaceAll(text, "NAME", name);
        FillAllSnoc(kept, name, template, prompt);
        results := results + [text];
        kept := kept + [name];
      }
    }
    assert au.nameChoices[..|au.nameChoices|] == au.nameChoices;
  }
}
