/** Directory entries and Python's `sorted` applied to their names. */
module EntrySort {
  import opened LexOrder

  /** One entry of the directory snapshot: the name `os.listdir` returns and
      what `os.path.isdir`, `os.access(X_OK)` and `os.stat` report for it. */
  datatype Entry = Entry(name: string, isDir: bool, isExec: bool, mtimeText: string, size: nat)

  ghost predicate SortedByName(s: seq<Entry>) {
    forall i, j :: 0 <= i < j < |s| ==> LexLe(s[i].name, s[j].name)
  }

  /** No two different entries share a name, as in any real directory. */
  ghost predicate NamesIdentify(m: multiset<Entry>) {
    forall x, y :: x in m && y in m && x.name == y.name ==> x == y
  }

  /** Inserts `e` into a list already sorted by name. */
  function Insert(e: Entry, s: seq<Entry>): (r: seq<Entry>)
    requires SortedByName(s)
    ensures SortedByName(r)
    ensures multiset(r) == multiset(s) + multiset{e}
  {
    if s == [] then [e]
    else if LexLe(e.name, s[0].name) then
      LexLeHeadBound(e.name, s);
      SortedCons(e, s);
      [e] + s
    else
      LexLeTotal(e.name, s[0].name);
      SortedTail(s);
      var rest := Insert(e, s[1..]);
      assert s == [s[0]] + s[1..];
      HeadBoundsRest(s, e, rest);
      SortedCons(s[0], rest);
      [s[0]] + rest
  }

  /** A list sorted by name stays sorted behind a name no greater than any of its names. */
  lemma SortedCons(x: Entry, s: seq<Entry>)
    requires SortedByName(s) && forall k :: 0 <= k < |s| ==> LexLe(x.name, s[k].name)
    ensures SortedByName([x] + s)
  {
  }

  /** A name no greater than the head of a sorted list is no greater than any of its names. */
  lemma LexLeHeadBound(n: string, s: seq<Entry>)
    requires SortedByName(s) && s != [] && LexLe(n, s[0].name)
    ensures forall k :: 0 <= k < |s| ==> LexLe(n, s[k].name)
  {
    forall k | 0 < k < |s|
      ensures LexLe(n, s[k].name)
    {
      LexLeTransitive(n, s[0].name, s[k].name);
    }
  }

  /** The head of a sorted list is no greater than anything inserted after it. */
  lemma HeadBoundsRest(s: seq<Entry>, e: Entry, rest: seq<Entry>)
    requires SortedByName(s) && s != [] && LexLe(s[0].name, e.name)
    requires multiset(rest) == multiset(s[1..]) + multiset{e}
    ensures forall k :: 0 <= k < |rest| ==> LexLe(s[0].name, rest[k].name)
  {
    forall k | 0 <= k < |rest|
      ensures LexLe(s[0].name, rest[k].name)
    {
      assert rest[k] in multiset(rest);
      if rest[k] != e {
        assert rest[k] in multiset(s[1..]);
        var j :| 0 <= j < |s[1..]| && s[1..][j] == rest[k];
        assert s[j + 1] == rest[k];
      }
    }
  }

  /** Python's `sorted` on the entry names, carrying each entry's metadata along. */
  function SortByName(s: seq<Entry>): (r: seq<Entry>)
    ensures SortedByName(r)
    ensures multiset(r) == multiset(s)
    ensures |r| == |s|
  {
    if s == [] then []
    else
      assert s == [s[0]] + s[1..];
      Insert(s[0], SortByName(s[1..]))
  }

  /** Two nonempty lists sorted by name holding the same entries, whose names
      identify them, begin with the same entry. */
  lemma SortedHeadsAgree(s: seq<Entry>, t: seq<Entry>)
    requires SortedByName(s) && SortedByName(t) && s != [] && t != []
    requires multiset(s) == multiset(t) && NamesIdentify(multiset(s))
    ensures s[0] == t[0]
  {
    assert s[0] in multiset(t) && t[0] in multiset(s);
    var i :| 0 <= i < |s| && s[i] == t[0];
    var j :| 0 <= j < |t| && t[j] == s[0];
    LexLeReflexive(s[0].name);
    assert LexLe(s[0].name, t[0].name);
    assert LexLe(t[0].name, s[0].name);
    LexLeAntisymmetric(s[0].name, t[0].name);
  }

  /** Two lists sorted by name holding the same entries, whose names identify
      them, are the same list. */
  lemma {:induction false} SortedPermutationUnique(s: seq<Entry>, t: seq<Entry>)
    requires SortedByName(s) && SortedByName(t)
    requires multiset(s) == multiset(t) && NamesIdentify(multiset(s))
    ensures s == t
    decreases |s|
  {
    if s == [] {
      assert |t| == |multiset(t)| == 0;
    } else {
      assert t != [] by {
        assert s[0] in multiset(t);
      }
      SortedHeadsAgree(s, t);
      SortedTail(s);
      SortedTail(t);
      TailsPermutation(s, t);
      NamesIdentifySubset(multiset(s[1..]), multiset(s));
      SortedPermutationUnique(s[1..], t[1..]);
      assert s == [s[0]] + s[1..] && t == [t[0]] + t[1..];
    }
  }

  lemma SortedTail(s: seq<Entry>)
    requires SortedByName(s) && s != []
    ensures SortedByName(s[1..])
  {
  }

  /** Removing the common head of two permutations of one another leaves two
      permutations of one another, each within the original. */
  lemma TailsPermutation(s: seq<Entry>, t: seq<Entry>)
    requires s != [] && t != [] && s[0] == t[0] && multiset(s) == multiset(t)
    ensures multiset(s[1..]) == multiset(t[1..]) && multiset(s[1..]) <= multiset(s)
  {
    assert s == [s[0]] + s[1..] && t == [t[0]] + t[1..];
    assert multiset(s[1..]) == multiset(s) - multiset{s[0]};
    assert multiset(t[1..]) == multiset(t) - multiset{t[0]};
  }

  lemma NamesIdentifySubset(m: multiset<Entry>, n: multiset<Entry>)
    requires m <= n && NamesIdentify(n)
    ensures NamesIdentify(m)
  {
  }

  /** The sorted order does not depend on the order the listing was returned in. */
  lemma SortIsOrderIndependent(a: seq<Entry>, b: seq<Entry>)
    requires multiset(a) == multiset(b) && NamesIdentify(multiset(a))
    ensures SortByName(a) == SortByName(b)
  {
    SortedPermutationUnique(SortByName(a), SortByName(b));
  }
}
