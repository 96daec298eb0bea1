# Artist utility catalog, modelled in Dafny

`scripts/artist_util.py` is a web UI script for browsing sample images of artists'
styles. It keeps a names list and a set of tags in plain text files. The model covers
the in-memory catalog behind it, the `AuEngine` class.

The catalog holds:

- the list of names: lower-cased, stripped, de-duplicated and sorted;
- the tags: sorted file names, each mapped to a sorted, duplicate-free member list;
- the templates;
- the image files of each image folder;
- a selection state: the lists offered (`- All -`, `- Uncategorized -`, then every tag),
  the selected list and its index, the names it offers, the selected name and its index,
  and the index last chosen in each list.

What the model contains:

- `AuEngine` is a Dafny class whose methods update these fields in place. Its `Valid()`
  invariant is kept by every method:
  - every member list is sorted and duplicate-free;
  - the names are sorted, duplicate-free, non-empty and lower case;
  - each selection index is `-1` with an empty selection, or a valid position holding the
    selected entry.
- Each loop of the original is a Dafny loop proved against a specification function:
  - the line reader of `load_string_list`;
  - the member scan of `select_list`;
  - `get_name_tags`, `set_name_tags` and `get_uncategorized_names`;
  - the two file searches.
- The `process=True` cleaning pipeline is a function. Lemmas prove what it yields: lower
  case, stripped, non-empty, sorted and duplicate-free, with each input line exactly once.
- The UI callbacks are modelled as operations on an engine, with the Gradio update
  objects reduced to the values they carry (`None` when a widget is left alone):
  - changing list or name;
  - previous and next;
  - find first and find next;
  - retagging the selected name;
  - prompt generation with skip tags.

Modules:

- `Strings` (strings.dfy): `strip`, ASCII `lower`, `replace`, substring test, string order;
- `Lists` (lists.dfy): in-order filter, `index`, `remove`, `sort`, `dict.fromkeys`;
- `Loading` (loading.dfy): `load_string_list`, `load_last_folders`;
- `Catalog` (catalog.dfy): the engine;
- `Callbacks` (callbacks.dfy): the UI actions;
- `Wrappers` (wrappers.dfy): `Option`.

## Model

| member | source | states |
|---|---|---|
| Strings.Strip | scripts/artist_util.py:74 | the result has no whitespace (Python's `str.isspace` set) at either end and is no longer than the input |
| Strings.StripIdempotent | scripts/artist_util.py:74 | stripping twice is stripping once |
| Strings.RemoveNewlines | scripts/artist_util.py:73 | every `'\n'` is removed and every other character kept; a line without one is unchanged |
| Strings.Lower | scripts/artist_util.py:79 | same length, no upper-case letter left, a lower-case string unchanged, stripped stays stripped |
| Strings.LowerIdempotent | scripts/artist_util.py:79 | lowering twice is lowering once |
| Strings.Contains | scripts/artist_util.py:314 | the `in` test on strings: the empty string is in every string, and a contained string is no longer than the text |
| Strings.ContainsWitness | scripts/artist_util.py:314 | a substring test that holds has an occurrence at some position |
| Strings.ContainsAt | scripts/artist_util.py:314 | an occurrence at any position makes the substring test hold |
| Strings.ReplaceAll | scripts/artist_util.py:448-449 | `str.replace`: a pattern that does not occur changes nothing; a replacement no longer than the pattern never lengthens the text, and one of equal length keeps the length |
| Strings.ReplaceSelf | scripts/artist_util.py:448-449 | replacing a pattern by itself changes nothing |
| Strings.StrLe | scripts/artist_util.py:85 | Python's string order: a prefix comes first, and otherwise the first characters are ordered |
| Strings.StrLeTrans | scripts/artist_util.py:85 | the string order used by `sort` is transitive |
| Strings.StrLeAntisym | scripts/artist_util.py:85 | the string order is antisymmetric |
| Strings.StrLeTotal | scripts/artist_util.py:85 | any two strings are ordered one way or the other |
| Lists.Filter | scripts/artist_util.py:180-183 | the kept elements are exactly those of the input passing the test |
| Lists.FilterPrefix | scripts/artist_util.py:180-183 | a loop appending the passing elements one by one builds the filter of the prefix scanned |
| Lists.FilterPreserves | scripts/artist_util.py:180-183 | filtering keeps a list sorted and duplicate-free, and keeping everything returns the list |
| Lists.IndexOf | scripts/artist_util.py:97-102 | `-1` exactly when the item is absent, otherwise the first position holding it |
| Lists.IndexOfNoDups | scripts/artist_util.py:97-102 | in a duplicate-free list the index of the entry at `i` is `i` |
| Lists.RemoveFirst | scripts/artist_util.py:243 | removes one occurrence (as multisets) when present, else changes nothing |
| Lists.RemoveFirstSorted | scripts/artist_util.py:243 | removing keeps a sorted duplicate-free list so |
| Lists.SortStrings | scripts/artist_util.py:85 | the result is an ascending permutation of the input, duplicate-free when the input was |
| Lists.SortedUnique | scripts/artist_util.py:85 | two ascending permutations of the same list are equal, so any correct sort gives this result |
| Lists.SortSorted | scripts/artist_util.py:244 | sorting an already sorted list leaves it as it is |
| Lists.Dedup | scripts/artist_util.py:81 | the result is duplicate-free with the same members; a duplicate-free list is unchanged |
| Loading.CleanLine | scripts/artist_util.py:73-74 | a cleaned line is stripped and no longer than the line |
| Loading.Cleaned | scripts/artist_util.py:72-76 | every kept line is stripped and non-empty unless empties are kept; every non-dropped line is kept; every entry comes from a line |
| Loading.CleanedAll | scripts/artist_util.py:75-76 | with `addempty` there is one entry per line, in order |
| Loading.Processed | scripts/artist_util.py:78-85 | the processed list is sorted, duplicate-free and holds exactly the lower-cased entries |
| Loading.Loaded | scripts/artist_util.py:66-86 | what `load_string_list` returns: with `process` sorted, duplicate-free and lower case; without it stripped entries, non-empty unless `addempty`, and one per line with `addempty` |
| Loading.LoadedFacts | scripts/artist_util.py:72-86 | every entry of a loaded list is stripped, and non-empty unless `addempty`, with or without `process` |
| Loading.LoadStringList | scripts/artist_util.py:66-86 | the reading loop yields `Loaded`; with `process` the list is sorted, duplicate-free and lower case; entries are stripped and non-empty unless `addempty` |
| Loading.LoadedProcessed | scripts/artist_util.py:72-85 | with `process=True`: sorted, duplicate-free, lower case, stripped, non-empty, each normalised input line exactly once and nothing else |
| Loading.PadFolders | scripts/artist_util.py:284-286 | a non-empty list shorter than `NUM_IMAGES` is padded with `''` up to it; otherwise unchanged; the original entries come first |
| Loading.LoadLastFolders | scripts/artist_util.py:282-287 | one cleaned entry per line, then `''` padding to at least four entries; no lines give no folders |
| Catalog.NameTags | scripts/artist_util.py:223-231 | the tags holding the name, none for `''`; duplicate-free when the tags are |
| Catalog.Uncategorized | scripts/artist_util.py:247-260 | the names belonging to no tag; sorted and duplicate-free when the names are |
| Catalog.UncategorizedNoNameTags | scripts/artist_util.py:223-260 | a non-empty name is uncategorized exactly when `get_name_tags` finds no tag for it |
| Catalog.Members | scripts/artist_util.py:176-183 | the names that are members of the tag list, in name order, sorted and duplicate-free |
| Catalog.ListNames | scripts/artist_util.py:171-183 | the names `select_list` offers for an item are catalog names, sorted and duplicate-free when the catalog's names are |
| Catalog.ListNamesCases | scripts/artist_util.py:171-183 | `- All -` offers every name; `- Uncategorized -` exactly the names in no tag; a tag exactly its members |
| Catalog.Retag | scripts/artist_util.py:237-244 | one tag's list after the decision: a sorted list stays sorted, the name is in it when asked, and it grows by one, shrinks by one or keeps its length as the name is added, removed or already right |
| Catalog.RetagSpec | scripts/artist_util.py:237-244 | one retag keeps a member list sorted and duplicate-free, makes the name's membership as asked and leaves other names alone |
| Catalog.RetagTwice | scripts/artist_util.py:234-244 | retagging twice in the same direction equals retagging once |
| Catalog.RetagStep | scripts/artist_util.py:234-244 | one pass of the retag loop extends the handled prefix of tags |
| Catalog.SetTagsEffect | scripts/artist_util.py:233-245 | after all tags are retagged: lists sorted and duplicate-free, name in tag `t` iff `t` in new tags, other names untouched |
| Catalog.SearchKey | scripts/artist_util.py:308 | the search key is lower case and stripped |
| Catalog.Matches | scripts/artist_util.py:319-327 | the files whose lower-cased name contains the key |
| Catalog.FirstMatch | scripts/artist_util.py:313-317 | a file of the list that matches, at a position with no matching file before it; none exactly when no file matches |
| Catalog.FirstMatchIsFirstOfMatches | scripts/artist_util.py:307-327 | the first match is the head of all matches, so the two searches agree |
| Catalog.FirstMatchStep | scripts/artist_util.py:313-316 | one step of the first-match scan |
| Catalog.ImageLookup | scripts/artist_util.py:307-317 | `find_image_filename`: none exactly for a blank name, a blank or unknown folder, or no matching file; otherwise a matching file of that folder |
| Catalog.AssortedLookup | scripts/artist_util.py:319-327 | `get_assorted_filenames`: exactly the assorted files containing the stripped lower-cased name, none for a blank name, never more than there are files |
| Catalog.LoadImageLists | scripts/artist_util.py:132-136 | one sorted file list per image folder, and no other keys |
| Catalog.LoadTagData | scripts/artist_util.py:141-143 | one processed (sorted, duplicate-free) member list per tag, and no other keys |
| Catalog.CollectMembers | scripts/artist_util.py:177-183 | the scan collects exactly the names the tag list holds, in name order |
| Catalog.LoadLibrary | scripts/artist_util.py:124-147 | the loaded lists are what the files give, and meet the invariant's list conditions |
| Catalog.RetagAll | scripts/artist_util.py:234-244 | the loop retags every listed tag and no other |
| Catalog.AuEngine.constructor | scripts/artist_util.py:113-156 | the catalog is loaded from the files, the list choices are the two specials then the tags, nothing is selected, the invariant holds |
| Catalog.AuEngine.SelectList | scripts/artist_util.py:158-184 | unknown item resets the whole selection; a known one is selected at its first index with its names, and no name is selected |
| Catalog.AuEngine.ShowList | scripts/artist_util.py:167-184 | the list at the index becomes the selected one, the names it was given are offered, no name is selected, and the invariant holds |
| Catalog.AuEngine.NamesOf | scripts/artist_util.py:171-183 | the names offered for a list: all names, the uncategorized ones or the tag's members |
| Catalog.AuEngine.SelectName | scripts/artist_util.py:186-195 | selects exactly when the item is offered, at its index, remembering it only when a list is selected; otherwise clears with the memory unchanged; the remembered name is then the default |
| Catalog.AuEngine.GetDefaultTemplate | scripts/artist_util.py:197-202 | the first template, `''` exactly when there is none |
| Catalog.AuEngine.GetDefaultList | scripts/artist_util.py:204-209 | always `- All -` |
| Catalog.AuEngine.GetDefaultName | scripts/artist_util.py:211-221 | `''` without a list; the remembered name if in range, `''` if out of range; the first name when nothing is remembered; always `''` or an offered name |
| Catalog.AuEngine.GetNameTags | scripts/artist_util.py:223-231 | the scan returns the tags, in tag order, holding the name; none for `''` |
| Catalog.AuEngine.SetNameTags | scripts/artist_util.py:233-245 | the name is in tag `t` iff `t` is in the new tags, for every listed tag; lists stay sorted and duplicate-free; other names keep their tags |
| Catalog.AuEngine.GetUncategorizedNames | scripts/artist_util.py:247-260 | the nested scan returns exactly the names no tag holds, in name order |
| Catalog.AuEngine.FindImageFilename | scripts/artist_util.py:307-317 | none for a blank name, blank or unknown folder, or no match; otherwise the first matching file |
| Catalog.AuEngine.GetAssortedFilenames | scripts/artist_util.py:319-327 | all matching assorted files in order, none for a blank name |
| Callbacks.ChangeList | scripts/artist_util.py:333-339 | an unknown list clears the selection and keeps the memory; a known one is selected at its first index with its names, then its remembered position (nothing if out of range) or else the first name is selected, that position is remembered for the list, and the tags returned are the selected name's |
| Callbacks.SelectDefaultName | scripts/artist_util.py:335 | `select_name(get_default_name())`: the remembered position if in range, else the first name, nothing without a list; a selected position is remembered for the list and the memory is otherwise unchanged |
| Callbacks.ChangeName | scripts/artist_util.py:341-345 | an offered name is selected at its index and remembered for the selected list; any other item clears the name selection and keeps the memory; returns the selected name's tags |
| Callbacks.MoveName | scripts/artist_util.py:347-371 | moves the selection by one when that stays in the list, otherwise changes nothing |
| Callbacks.PrevName | scripts/artist_util.py:347-358 | at the first name or with none selected nothing changes and both widgets are left alone; otherwise the previous name is selected, remembered for the list and returned with its tags |
| Callbacks.NextName | scripts/artist_util.py:360-371 | at the last name nothing changes and both widgets are left alone; otherwise the next name (the first from no selection) is selected, remembered for the list and returned with its tags |
| Callbacks.NextThenPrev | scripts/artist_util.py:347-371 | next then previous from a name that has a successor brings back the same name and index, remembered for the list |
| Callbacks.FirstContaining | scripts/artist_util.py:385-389 | the first position from `from` whose name contains the key, or `-1` when none does |
| Callbacks.SearchNames | scripts/artist_util.py:412-416 | the search loop stops at the first containing name |
| Callbacks.FindFirst | scripts/artist_util.py:378-402 | blank search or match already selected: no change; no match: dropdown blanked, selection kept; else the first match selected |
| Callbacks.FindNext | scripts/artist_util.py:404-426 | the first match after the selected name is selected; no change for a blank search or no later match |
| Callbacks.ChangeTags | scripts/artist_util.py:373-376 | with no name selected nothing changes; otherwise the selected name's tags become the new ones |
| Callbacks.Kept | scripts/artist_util.py:436-447 | the names with no tag among the skip tags; all names when there are no skip tags |
| Callbacks.FillAllSnoc | scripts/artist_util.py:450 | appending one name appends its prompt |
| Callbacks.Fill | scripts/artist_util.py:448-449 | a template without `NAME` or `PROMPT` gives itself for every name |
| Callbacks.FillName | scripts/artist_util.py:448-449 | the template `NAME` gives a (lower-case) catalog name unchanged |
| Callbacks.AnyIn | scripts/artist_util.py:440-445 | the inner loop finds a skip tag exactly when one of the name's tags is among them |
| Callbacks.SavePrompts | scripts/artist_util.py:435-450 | the prompts for the kept names in order; skipped plus generated equals the names listed; nothing skipped without skip tags |

## Left out

- File system: directory creation and scans, `open`/`readlines` and every `save_string_list`
  call are not modelled. The constructor receives the lines and folder contents those calls
  would produce, and a missing file reads as no lines. `set_name_tags` and the prompt
  generation do not write their files, and `save_last_folders` is not part of this model.
- `load_image`, `get_assorted_images`, `do_selected_name_change` and `do_folder_selector_change`
  open images with PIL. `load_image` (lines 262-277) moves on to the next matching file when
  one fails to open, and `get_assorted_images` (lines 289-305) drops files that fail to open.
  Their result therefore agrees with `find_image_filename` and `get_assorted_filenames` only
  when every matching file opens; opening images is not modelled.
- The Gradio page (`add_tab`), the global engine and the update objects are not modelled.
  A callback returns the values it would show.
- `do_save_html` is left out. It formats text with Python's `str(list)` and writes a file.
- The `print` warnings and the log text of the prompt generation are left out.
- Strings.Lower: lower-cases ASCII letters only, because full Unicode case mapping is not
  modelled. Whitespace for `strip` is Python's complete `isspace` set.
- Lists.SortStrings: Python's `sort` is modelled by an insertion sort. `SortedUnique` shows
  that any sort returning an ascending permutation gives the same list.
- Lists.Dedup: its contract does not state that the first occurrence is kept in order. The
  definition keeps it, but the list is sorted right after, so the contract says only what
  the sort needs.
- Catalog.AuEngine.constructor: `SHOW_ASSORTED` and `HTML_ADD_ASSORTED` are fixed at their
  shipped value `False`, so the assorted list stays empty.
- Callbacks.FillName: proved for the template `NAME` alone. How `NAME` and `PROMPT`
  substitutions interact in a general template is not stated.
