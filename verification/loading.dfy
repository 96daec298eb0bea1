/** The text-line part of `load_string_list` and the padding rule of `load_last_folders`
    (scripts/artist_util.py). The file read itself is outside the model: a function here
    receives the lines `readlines()` returned, and a file that does not exist reads as no lines. */
module Loading {
  import opened Strings
  import opened Lists

  /** How many image folders the UI shows side by side (`NUM_IMAGES`). */
  const NumImages: nat := 4

  /** One line as `load_string_list` keeps it: every `'\n'` removed, then stripped. */
  function CleanLine(line: string): (r: string)
    ensures Stripped(r) && |r| <= |line|
  {
    Strip(RemoveNewlines(line))
  }

  function CleanLines(lines: seq<string>): seq<string> {
    seq(|lines|, i requires 0 <= i < |lines| => CleanLine(lines[i]))
  }

  /** The test that decides whether a cleaned line is kept. */
  function KeepLine(addEmpty: bool): string -> bool {
    c => addEmpty || c != ""
  }

  /** What the reading loop collects: the cleaned lines, in file order, without the empty
      ones unless `addEmpty`. */
  function Cleaned(lines: seq<string>, addEmpty: bool): (r: seq<string>)
    ensures forall x :: x in r ==> Stripped(x) && (addEmpty || x != "")
    ensures forall i :: 0 <= i < |lines| && (addEmpty || CleanLine(lines[i]) != "") ==> CleanLine(lines[i]) in r
    ensures forall x :: x in r ==> exists i :: 0 <= i < |lines| && x == CleanLine(lines[i])
  {
    CleanedMembers(lines, addEmpty);
    Filter(CleanLines(lines), KeepLine(addEmpty))
  }

  /** The membership facts of `Cleaned`, one `forall` at a time. */
  lemma CleanedMembers(lines: seq<string>, addEmpty: bool)
    ensures var r := Filter(CleanLines(lines), KeepLine(addEmpty));
      (forall x :: x in r ==> Stripped(x) && (addEmpty || x != ""))
      && (forall i :: 0 <= i < |lines| && (addEmpty || CleanLine(lines[i]) != "") ==> CleanLine(lines[i]) in r)
      && (forall x :: x in r ==> exists i :: 0 <= i < |lines| && x == CleanLine(lines[i]))
  {
    var c := CleanLines(lines);
    var r := Filter(c, KeepLine(addEmpty));
    forall x | x in r
      ensures Stripped(x) && (addEmpty || x != "")
      ensures exists i :: 0 <= i < |lines| && x == CleanLine(lines[i])
    {
      assert x in c && KeepLine(addEmpty)(x);
      var i :| 0 <= i < |c| && c[i] == x;
      assert x == CleanLine(lines[i]);
    }
    forall i | 0 <= i < |lines| && (addEmpty || CleanLine(lines[i]) != "")
      ensures CleanLine(lines[i]) in r
    {
      assert c[i] == CleanLine(lines[i]);
      assert c[i] in c;
    }
  }

  /** Reading one more line appends its cleaned form, unless it is dropped as empty. */
  lemma CleanedStep(lines: seq<string>, i: nat, addEmpty: bool)
    requires i < |lines|
    ensures Cleaned(lines[..i + 1], addEmpty) == Cleaned(lines[..i], addEmpty)
      + (if addEmpty || CleanLine(lines[i]) != "" then [CleanLine(lines[i])] else [])
  {
    var c := CleanLines(lines);
    CleanLinesPrefix(lines, i);
    CleanLinesPrefix(lines, i + 1);
    FilterPrefix(c, i, KeepLine(addEmpty));
    assert c[i] == CleanLine(lines[i]);
  }

  /** Cleaning a prefix of the lines is the prefix of the cleaned lines. */
  lemma CleanLinesPrefix(lines: seq<string>, j: nat)
    requires j <= |lines|
    ensures CleanLines(lines)[..j] == CleanLines(lines[..j])
  {
  }

  /** With `addEmpty` every line is kept: one entry per line, in order. */
  lemma CleanedAll(lines: seq<string>)
    ensures Cleaned(lines, true) == CleanLines(lines)
  {
    FilterAll(CleanLines(lines), KeepLine(true));
  }

  /** `[x.lower() for x in s]`. */
  function LowerAll(s: seq<string>): (r: seq<string>)
    ensures |r| == |s| && forall x :: x in r ==> IsLower(x)
  {
    seq(|s|, i requires 0 <= i < |s| => Lower(s[i]))
  }

  /** The `process=True` step: lower-case, keep the first of each repeated entry, sort. */
  function Processed(s: seq<string>): (r: seq<string>)
    ensures Sorted(r) && NoDups(r)
    ensures forall x :: x in r <==> x in LowerAll(s)
  {
    var d := Dedup(LowerAll(s));
    assert forall x :: x in SortStrings(d) <==> x in multiset(d);
    SortStrings(d)
  }

  /** What `load_string_list` returns for a file with these lines. */
  function Loaded(lines: seq<string>, process: bool, addEmpty: bool): (r: seq<string>)
    ensures process ==> Sorted(r) && NoDups(r) && forall x :: x in r ==> IsLower(x)
    ensures !process ==> forall x :: x in r ==> Stripped(x) && (addEmpty || x != "")
    ensures !process && addEmpty ==> |r| == |lines|
  {
    var c := Cleaned(lines, addEmpty);
    CleanedAll(lines);
    if process then Processed(c) else c
  }

  /** `load_string_list(file_name, process, addempty)` after the file has been read. */
  method LoadStringList(lines: seq<string>, process: bool, addEmpty: bool) returns (result: seq<string>)
    ensures result == Loaded(lines, process, addEmpty)
    ensures !process && addEmpty ==> |result| == |lines|
    ensures forall x :: x in result ==> (addEmpty || x != "") && Stripped(x)
    ensures process ==> Sorted(result) && NoDups(result) && forall x :: x in result ==> IsLower(x)
  {
    result := [];
    for i := 0 to |lines|
      invariant result == Cleaned(lines[..i], addEmpty)
    {
      var line := RemoveNewlines(lines[i]);
      line := Strip(line);
      assert line == CleanLine(lines[i]);
      CleanedStep(lines, i, addEmpty);
      if addEmpty || line != "" {
        result := result + [line];
      }
    }
    assert lines[..|lines|] == lines;
    if process {
      result := SortStrings(Dedup(LowerAll(result)));
    }
    LoadedFacts(lines, process, addEmpty);
  }

  /** The entries of a loaded file are stripped, and non-empty unless `addEmpty`, whether or not
      the file is processed. */
  lemma LoadedFacts(lines: seq<string>, process: bool, addEmpty: bool)
    ensures forall x :: x in Loaded(lines, process, addEmpty) ==> (addEmpty || x != "") && Stripped(x)
  {
    if process {
      LoadedProcessed(lines, addEmpty);
    }
  }

  /** The list a processed file yields (names, tag members): every entry is lower-case,
      stripped and non-empty; the list is ascending and free of duplicates; and it holds each
      normalised non-empty input line exactly once, and nothing else. */
  lemma {:induction false} LoadedProcessed(lines: seq<string>, addEmpty: bool)
    ensures var r := Loaded(lines, true, addEmpty);
      Sorted(r) && NoDups(r)
      && (forall x :: x in r ==> IsLower(x) && Stripped(x) && (addEmpty || x != ""))
      && (forall i :: 0 <= i < |lines| && (addEmpty || CleanLine(lines[i]) != "") ==>
            multiset(r)[Lower(CleanLine(lines[i]))] == 1)
      && (forall x :: x in r ==> exists i :: 0 <= i < |lines| && x == Lower(CleanLine(lines[i])))
  {
    var c := Cleaned(lines, addEmpty);
    var l := LowerAll(c);
    var r := Processed(c);
    forall x | x in r ensures IsLower(x) && Stripped(x) && (addEmpty || x != "")
      && exists i :: 0 <= i < |lines| && x == Lower(CleanLine(lines[i]))
    {
      var j :| 0 <= j < |l| && l[j] == x;
      assert c[j] in c;
      var i :| 0 <= i < |lines| && c[j] == CleanLine(lines[i]);
      assert x == Lower(CleanLine(lines[i]));
    }
    forall i | 0 <= i < |lines| && (addEmpty || CleanLine(lines[i]) != "")
      ensures multiset(r)[Lower(CleanLine(lines[i]))] == 1
    {
      var y := CleanLine(lines[i]);
      assert y in c;
      var j :| 0 <= j < |c| && c[j] == y;
      ProcessedHas(c, j);
      NoDupsCount(r, Lower(y));
    }
  }

  /** Every entry of a list survives processing, lower-cased. */
  lemma ProcessedHas(c: seq<string>, j: int)
    requires 0 <= j < |c|
    ensures Lower(c[j]) in Processed(c)
  {
    var l := LowerAll(c);
    assert l[j] == Lower(c[j]);
    assert l[j] in l;
  }

  /** The padding in `load_last_folders`: a non-empty list shorter than `NumImages` is
      filled up with empty folder names; an empty or long enough list is kept. */
  function PadFolders(folders: seq<string>): (r: seq<string>)
    ensures folders == [] ==> r == []
    ensures folders != [] ==> |r| == if |folders| < NumImages then NumImages else |folders|
    ensures |folders| <= |r| && r[..|folders|] == folders
    ensures forall k :: |folders| <= k < |r| ==> r[k] == ""
  {
    if 0 < |folders| < NumImages then folders + seq(NumImages - |folders|, _ => "") else folders
  }

  /** `load_last_folders`: the lines of `last_folders.txt`, stripped and empty ones kept, then
      padded: one folder name per line, and at least `NumImages` of them when the file has any. */
  method LoadLastFolders(lines: seq<string>) returns (folders: seq<string>)
    ensures folders == PadFolders(Loaded(lines, false, true))
    ensures lines == [] ==> folders == []
    ensures lines != [] ==> |folders| >= NumImages && |folders| >= |lines|
    ensures forall k :: 0 <= k < |lines| ==> folders[k] == CleanLine(lines[k])
    ensures forall k :: |lines| <= k < |folders| ==> folders[k] == ""
  {
    var loaded := LoadStringList(lines, false, true);
    CleanedAll(lines);
    folders := PadFolders(loaded);
    assert forall k :: 0 <= k < |lines| ==> folders[k] == folders[..|loaded|][k];
  }
}
