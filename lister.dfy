/** The body of `pyls`: list one directory snapshot in sorted order, in the
    formatted, long or plain display mode. Output lines are returned as a
    sequence instead of being printed. */
module Lister {
  import opened LexOrder
  import opened EntrySort
  import opened Format

  /** The marker computed for an entry. Only the formatted branch assigns it,
      and it assigns `"/"` to directories only: an executable file keeps the
      empty marker. */
  function Marker(e: Entry, formatted: bool): (m: string)
    ensures m == "/" <==> formatted && e.isDir
    ensures m != "/" ==> m == ""
  {
    if formatted then
      if e.isDir then "/" else if e.isExec then "" else ""
    else ""
  }

  /** `f"last accessed{timestamp}, size {size:>10} {entry}{marker}"`: the
      fields sit at fixed offsets from the two ends of the line, so each one
      can be cut back out of it. */
  function LongLine(e: Entry, marker: string): (r: string)
    ensures var head := "last accessed" + e.mtimeText + ", size ";
      var tail := " " + e.name + marker;
      && |r| == |head| + |SizeField(e.size)| + |tail|
      && r[..|head|] == head
      && r[|head|..|r| - |tail|] == SizeField(e.size)
      && r[|r| - |tail|..] == tail
  {
    var head := "last accessed" + e.mtimeText + ", size ";
    var tail := " " + e.name + marker;
    ThreeSlices(head, SizeField(e.size), tail);
    head + SizeField(e.size) + tail
  }

  /** Each part of a three-part concatenation is the slice at its offset. */
  lemma ThreeSlices(a: string, b: string, c: string)
    ensures var r := a + b + c;
      && |r| == |a| + |b| + |c|
      && r[..|a|] == a
      && r[|a|..|r| - |c|] == b
      && r[|r| - |c|..] == c
  {
  }

  /** The lines one loop iteration prints: none when `formatted` (that branch
      has no `print`), else the long line when `longform`, else the name. */
  function Emitted(e: Entry, longform: bool, formatted: bool): (r: seq<string>)
    ensures |r| == if formatted then 0 else 1
  {
    var marker := Marker(e, formatted);
    if formatted then []
    else if longform then [LongLine(e, marker)]
    else [e.name + marker]
  }

  /** The lines printed by the loop over `s`, in order. */
  function EmitAll(s: seq<Entry>, longform: bool, formatted: bool): (r: seq<string>)
    ensures |r| == if formatted then 0 else |s|
    decreases |s|
  {
    if s == [] then []
    else EmitAll(s[..|s| - 1], longform, formatted) + Emitted(s[|s| - 1], longform, formatted)
  }

  /** Everything `pyls` prints for a directory holding `entries`: one line
      per entry in the two printing modes, nothing in formatted mode. */
  function Listing(entries: seq<Entry>, longform: bool, formatted: bool): (r: seq<string>)
    ensures |r| == if formatted then 0 else |entries|
  {
    EmitAll(SortByName(entries), longform, formatted)
  }

  /** `pyls(dirname, longform, formatted)` on a snapshot of `dirname`. */
  method Pyls(entries: seq<Entry>, longform: bool, formatted: bool) returns (lines: seq<string>)
    ensures lines == Listing(entries, longform, formatted)
  {
    var sorted := SortByName(entries);
    lines := PrintEntries(sorted, longform, formatted);
  }

  /** The `for` loop of `pyls` over the already sorted entries. */
  method PrintEntries(sorted: seq<Entry>, longform: bool, formatted: bool) returns (lines: seq<string>)
    ensures lines == EmitAll(sorted, longform, formatted)
  {
    lines := [];
    var i := 0;
    while i < |sorted|
      invariant 0 <= i <= |sorted|
      invariant lines == EmitAll(sorted[..i], longform, formatted)
    {
      var entry := sorted[i];
      var marker := "";
      if formatted {
        if entry.isDir {
          marker := "/";
        } else if entry.isExec {
          marker := "";
        }
      } else if longform {
        lines := lines + [LongLine(entry, marker)];
      } else {
        lines := lines + [entry.name + marker];
      }
      assert marker == Marker(entry, formatted);
      EmitAllStep(sorted, i, longform, formatted);
      i := i + 1;
    }
    assert sorted[..i] == sorted;
  }

  /** One more loop iteration appends what that iteration prints. */
  lemma EmitAllStep(s: seq<Entry>, i: nat, longform: bool, formatted: bool)
    requires i < |s|
    ensures EmitAll(s[..i + 1], longform, formatted) == EmitAll(s[..i], longform, formatted) + Emitted(s[i], longform, formatted)
  {
    assert s[..i + 1][..i] == s[..i];
  }

  /** The long line of an entry without a marker. */
  lemma LongLineUnmarked(e: Entry)
    ensures LongLine(e, "") == "last accessed" + e.mtimeText + ", size " + SizeField(e.size) + " " + e.name
  {
    assert " " + e.name + "" == " " + e.name;
  }

  /** Outside the formatted mode the loop prints exactly one line per entry,
      in order, with an empty marker. */
  lemma {:induction false} EmitAllOneLineEach(s: seq<Entry>, longform: bool)
    ensures forall i :: 0 <= i < |s| ==>
      EmitAll(s, longform, false)[i] == if longform then LongLine(s[i], "") else s[i].name
    decreases |s|
  {
    if s != [] {
      var init := s[..|s| - 1];
      EmitAllOneLineEach(init, longform);
      var r := EmitAll(s, longform, false);
      assert r == EmitAll(init, longform, false) + Emitted(s[|s| - 1], longform, false);
      forall i | 0 <= i < |s|
        ensures r[i] == if longform then LongLine(s[i], "") else s[i].name
      {
        if i < |init| {
          assert s[i] == init[i];
        } else {
          assert s[i].name + "" == s[i].name;
        }
      }
    }
  }

  /** `formatted` takes precedence over `longform`: nothing at all is printed. */
  lemma FormattedPrintsNothing(entries: seq<Entry>, longform: bool)
    ensures Listing(entries, longform, true) == []
  {
  }

  /** Every entry of a list occurs at some index of any permutation of it. */
  lemma OccursInPermutation(e: Entry, entries: seq<Entry>, sorted: seq<Entry>)
    requires multiset(sorted) == multiset(entries) && e in entries
    ensures exists k :: 0 <= k < |sorted| && sorted[k] == e
  {
    assert e in multiset(entries);
    assert e in multiset(sorted);
  }

  /** The plain listing: one line per entry, each the bare name, in ascending
      name order, with every entry's name present. */
  lemma PlainListing(entries: seq<Entry>)
    ensures var lines := Listing(entries, false, false);
      var sorted := SortByName(entries);
      && |lines| == |sorted| == |entries|
      && (forall i :: 0 <= i < |lines| ==> lines[i] == sorted[i].name)
      && (forall i, j :: 0 <= i < j < |lines| ==> LexLe(lines[i], lines[j]))
      && (forall e :: e in entries ==> e.name in lines)
  {
    var sorted := SortByName(entries);
    var lines := Listing(entries, false, false);
    EmitAllOneLineEach(sorted, false);
    forall e | e in entries
      ensures e.name in lines
    {
      OccursInPermutation(e, entries, sorted);
      var k :| 0 <= k < |sorted| && sorted[k] == e;
      assert lines[k] == e.name;
    }
  }

  /** The long listing: one line per entry in ascending name order, each the
      timestamp, the size right-justified in ten columns and the name, with
      no marker; every entry has its line. */
  lemma LongListing(entries: seq<Entry>)
    ensures var lines := Listing(entries, true, false);
      var sorted := SortByName(entries);
      && |lines| == |sorted| == |entries|
      && (forall i :: 0 <= i < |lines| ==>
            lines[i] == "last accessed" + sorted[i].mtimeText + ", size "
                        + SizeField(sorted[i].size) + " " + sorted[i].name)
      && (forall i, j :: 0 <= i < j < |lines| ==> LexLe(sorted[i].name, sorted[j].name))
      && (forall e :: e in entries ==> LongLine(e, "") in lines)
  {
    var sorted := SortByName(entries);
    var lines := Listing(entries, true, false);
    EmitAllOneLineEach(sorted, true);
    forall i | 0 <= i < |lines|
      ensures lines[i] == "last accessed" + sorted[i].mtimeText + ", size "
                          + SizeField(sorted[i].size) + " " + sorted[i].name
    {
      LongLineUnmarked(sorted[i]);
    }
    forall e | e in entries
      ensures LongLine(e, "") in lines
    {
      OccursInPermutation(e, entries, sorted);
      var k :| 0 <= k < |sorted| && sorted[k] == e;
      assert lines[k] == LongLine(e, "");
    }
  }

  /** The output does not depend on the order the directory was enumerated in. */
  lemma ListingIsOrderIndependent(a: seq<Entry>, b: seq<Entry>, longform: bool, formatted: bool)
    requires multiset(a) == multiset(b) && NamesIdentify(multiset(a))
    ensures Listing(a, longform, formatted) == Listing(b, longform, formatted)
  {
    SortIsOrderIndependent(a, b);
  }

  /** A listing of two entries whose names are out of order is sorted by
      swapping them. */
  lemma SortSwapsPair(x: Entry, y: Entry)
    requires !LexLe(x.name, y.name)
    ensures SortByName([x, y]) == [y, x]
  {
    assert [x, y][1..] == [y];
    assert SortByName([y]) == [y];
  }

  /** The loop over two entries prints what each iteration prints, in order. */
  lemma EmitPair(x: Entry, y: Entry, longform: bool, formatted: bool)
    ensures EmitAll([x, y], longform, formatted) == Emitted(x, longform, formatted) + Emitted(y, longform, formatted)
  {
    assert [x, y][..1] == [x];
    assert [x][..0] == [];
  }

  /** A directory holding `b.txt` and `a.txt` lists as `a.txt`, `b.txt`. */
  lemma PlainListingExample()
    ensures Listing([Entry("b.txt", false, false, "", 0), Entry("a.txt", false, false, "", 0)], false, false)
            == ["a.txt", "b.txt"]
  {
    var a := Entry("a.txt", false, false, "", 0);
    var b := Entry("b.txt", false, false, "", 0);
    assert !LexLe(b.name, a.name);
    SortSwapsPair(b, a);
    EmitPair(a, b, false, false);
    assert Marker(a, false) == "" && Marker(b, false) == "";
    assert a.name + "" == a.name && b.name + "" == b.name;
    assert Emitted(a, false, false) == [a.name];
    assert Emitted(b, false, false) == [b.name];
  }

  // The two functions below are the behaviour the docstring of `pyls`
  // describes, kept beside the code's own behaviour above: the formatted
  // mode prints each name with its marker, and executables are marked `*`.

  /** The marker the docstring promises: `"/"` for a directory, `"*"` for an
      executable file, nothing otherwise. */
  function IntendedMarker(e: Entry): (m: string)
    ensures m == "/" <==> e.isDir
    ensures m == "*" <==> !e.isDir && e.isExec
    ensures m == "" <==> !e.isDir && !e.isExec
  {
    if e.isDir then "/" else if e.isExec then "*" else ""
  }

  /** The listing with the formatted branch printing `name + marker`; the
      other two modes are unchanged. Every mode prints one line per entry. */
  function IntendedListing(entries: seq<Entry>, longform: bool, formatted: bool): (lines: seq<string>)
    ensures |lines| == |entries|
  {
    if formatted then
      var sorted := SortByName(entries);
      seq(|sorted|, i requires 0 <= i < |sorted| => sorted[i].name + IntendedMarker(sorted[i]))
    else Listing(entries, longform, formatted)
  }

  /** In the corrected formatted mode each line is an entry's name followed
      by `/` exactly for directories and `*` exactly for executable files,
      in name order, and every directory appears with its slash. */
  lemma IntendedFormattedListing(entries: seq<Entry>, longform: bool)
    ensures var lines := IntendedListing(entries, longform, true);
      var sorted := SortByName(entries);
      && |lines| == |sorted| == |entries|
      && (forall i :: 0 <= i < |lines| ==>
            && lines[i][..|sorted[i].name|] == sorted[i].name
            && (lines[i] == sorted[i].name + "/" <==> sorted[i].isDir)
            && (lines[i] == sorted[i].name + "*" <==> !sorted[i].isDir && sorted[i].isExec)
            && (lines[i] == sorted[i].name <==> !sorted[i].isDir && !sorted[i].isExec))
      && (forall e :: e in entries && e.isDir ==> e.name + "/" in lines)
  {
    var sorted := SortByName(entries);
    var lines := IntendedListing(entries, longform, true);
    forall i | 0 <= i < |lines|
      ensures lines[i] == sorted[i].name + "/" <==> sorted[i].isDir
      ensures lines[i] == sorted[i].name + "*" <==> !sorted[i].isDir && sorted[i].isExec
      ensures lines[i] == sorted[i].name <==> !sorted[i].isDir && !sorted[i].isExec
    {
      var n := sorted[i].name;
      SuffixDetermines(n, IntendedMarker(sorted[i]), "/");
      SuffixDetermines(n, IntendedMarker(sorted[i]), "*");
      SuffixDetermines(n, IntendedMarker(sorted[i]), "");
      assert n + "" == n;
    }
    forall e | e in entries && e.isDir
      ensures e.name + "/" in lines
    {
      OccursInPermutation(e, entries, sorted);
      var k :| 0 <= k < |sorted| && sorted[k] == e;
      assert lines[k] == e.name + "/";
    }
  }

  lemma SuffixDetermines(n: string, a: string, b: string)
    ensures n + a == n + b <==> a == b
  {
    if n + a == n + b {
      assert a == (n + a)[|n|..];
    }
  }

  /** A directory `sub` beside a file `f.txt`, listed with `formatted`: the
      code prints nothing, the docstring promises `f.txt` and `sub/`. */
  lemma FormattedListingExample()
    ensures var entries := [Entry("sub", true, true, "", 4096), Entry("f.txt", false, false, "", 12)];
      && Listing(entries, false, true) == []
      && IntendedListing(entries, false, true) == ["f.txt", "sub/"]
  {
    var d := Entry("sub", true, true, "", 4096);
    var f := Entry("f.txt", false, false, "", 12);
    FormattedPrintsNothing([d, f], false);
    assert !LexLe(d.name, f.name);
    SortSwapsPair(d, f);
    var lines := IntendedListing([d, f], false, true);
    assert |lines| == 2;
    assert lines[0] == f.name + IntendedMarker(f) == "f.txt" + "" == "f.txt";
    assert lines[1] == d.name + IntendedMarker(d) == "sub" + "/" == "sub/";
    assert lines == ["f.txt", "sub/"];
  }

  /** An executable file listed with `formatted` gets the empty marker from
      the code and `*` from the docstring. */
  lemma ExecutableMarkerExample()
    ensures var e := Entry("run.sh", false, true, "", 0);
      Marker(e, true) == "" && IntendedMarker(e) == "*"
  {
  }
}
