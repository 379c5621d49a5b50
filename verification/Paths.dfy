/** The order of std::string, and the sorted list of distinct paths the inspector works through. */
module Paths {
  /** Lexicographic order by unsigned bytes. */
  predicate Less(a: string, b: string)
    decreases |a|
  {
    b != "" && (a == "" || a[0] < b[0] || (a[0] == b[0] && Less(a[1..], b[1..])))
  }

  lemma {:induction false} Trichotomy(a: string, b: string)
    ensures Less(a, b) || a == b || Less(b, a)
    ensures !(Less(a, b) && Less(b, a)) && !Less(a, a)
    decreases |a|
  {
    if a != "" {
      Trichotomy(a[1..], a[1..]);
      if b != "" {
        Trichotomy(a[1..], b[1..]);
        if a[0] == b[0] && a[1..] == b[1..] {
          assert a == [a[0]] + a[1..] == [b[0]] + b[1..] == b;
        }
      }
    }
  }

  lemma {:induction false} LessTransitive(a: string, b: string, c: string)
    requires !Less(b, a) && !Less(c, b)
    ensures !Less(c, a)
    ensures Less(a, b) || Less(b, c) ==> Less(a, c)
    decreases |a|
  {
    Trichotomy(a, b);
    Trichotomy(b, c);
    Trichotomy(a, c);
    if a != "" && b != "" && c != "" && a[0] == b[0] == c[0] {
      LessTransitive(a[1..], b[1..], c[1..]);
    }
  }

  /** Where two paths first differ, by one ending or by a smaller byte, decides their order. */
  lemma {:induction false} LessMeans(a: string, b: string)
    ensures Less(a, b) <==> exists k: nat :: DecidesAt(a, b, k)
    decreases |a|
  {
    if a != "" && b != "" && a[0] == b[0] {
      LessMeans(a[1..], b[1..]);
      if k: nat :| DecidesAt(a[1..], b[1..], k) {
        assert a[..k + 1] == [a[0]] + a[1..][..k] && b[..k + 1] == [b[0]] + b[1..][..k];
        assert DecidesAt(a, b, k + 1);
      }
      if k: nat :| DecidesAt(a, b, k) {
        assert k > 0 && a[1..][..k - 1] == a[..k][1..] && b[1..][..k - 1] == b[..k][1..];
        assert DecidesAt(a[1..], b[1..], k - 1);
      }
    } else {
      if Less(a, b) {
        assert DecidesAt(a, b, 0);
      }
      if k: nat :| DecidesAt(a, b, k) {
        assert k > 0 ==> a[..k][0] == b[..k][0];
      }
    }
  }

  /** The first k bytes are the same, and then a ends, or has the smaller byte. */
  ghost predicate DecidesAt(a: string, b: string, k: nat) {
    k <= |a| && k < |b| && a[..k] == b[..k] && (k == |a| || a[k] < b[k])
  }

  ghost predicate Ascending(s: seq<string>) {
    forall i, j :: 0 <= i < j < |s| ==> !Less(s[j], s[i])
  }

  ghost predicate StrictlyAscending(s: seq<string>) {
    forall i, j :: 0 <= i < j < |s| ==> Less(s[i], s[j])
  }

  // ---- Sorting ----

  function Insert(p: string, s: seq<string>): seq<string> {
    if s == [] || !Less(s[0], p) then [p] + s else [s[0]] + Insert(p, s[1..])
  }

  function Sorted(paths: seq<string>): seq<string> {
    if paths == [] then [] else Insert(paths[0], Sorted(paths[1..]))
  }

  lemma {:induction false} InsertMembers(p: string, s: seq<string>)
    ensures multiset(Insert(p, s)) == multiset(s) + multiset{p}
    decreases |s|
  {
    hide Less;
    if s != [] {
      assert s == [s[0]] + s[1..];
      if Less(s[0], p) {
        InsertMembers(p, s[1..]);
      }
    }
  }

  lemma {:induction false} InsertKeeps(p: string, s: seq<string>)
    requires Ascending(s)
    ensures Ascending(Insert(p, s))
    ensures multiset(Insert(p, s)) == multiset(s) + multiset{p}
    decreases |s|
  {
    hide Less;
    InsertMembers(p, s);
    if s != [] {
      Trichotomy(p, s[0]);
      if Less(s[0], p) {
        var tail := Insert(p, s[1..]);
        InsertKeeps(p, s[1..]);
        forall j | 0 <= j < |tail| ensures !Less(tail[j], s[0]) {
          assert tail[j] in multiset(tail);
          assert tail[j] == p || tail[j] in s[1..];
        }
      } else {
        forall j | 0 <= j < |s| ensures !Less(s[j], p) {
          Trichotomy(s[0], s[0]);
          LessTransitive(p, s[0], s[j]);
        }
      }
    }
  }

  lemma {:induction false} SortedKeeps(paths: seq<string>)
    ensures Ascending(Sorted(paths)) && multiset(Sorted(paths)) == multiset(paths)
    decreases |paths|
  {
    if paths != [] {
      SortedKeeps(paths[1..]);
      InsertKeeps(paths[0], Sorted(paths[1..]));
      assert paths == [paths[0]] + paths[1..];
    }
  }

  lemma TailMultiset(s: seq<string>)
    requires s != []
    ensures multiset(s[1..]) == multiset(s) - multiset{s[0]} && s == [s[0]] + s[1..]
  {
    assert s == [s[0]] + s[1..];
  }

  /** No member of the same multiset is less than the first of an ascending list. */
  lemma FirstIsLeast(s: seq<string>, t: seq<string>)
    requires Ascending(s) && s != [] && t != [] && multiset(s) == multiset(t)
    ensures !Less(t[0], s[0])
  {
    assert t[0] in multiset(s);
    var j :| 0 <= j < |s| && s[j] == t[0];
    Trichotomy(s[0], s[0]);
  }

  /** Whatever algorithm sorts, the result is the same. */
  lemma {:induction false} OneSortedList(s: seq<string>, t: seq<string>)
    requires Ascending(s) && Ascending(t) && multiset(s) == multiset(t)
    ensures s == t
    decreases |s|
  {
    assert |s| == |multiset(s)| && |t| == |multiset(t)|;
    if s != [] {
      FirstIsLeast(s, t);
      FirstIsLeast(t, s);
      Trichotomy(s[0], t[0]);
      TailMultiset(s);
      TailMultiset(t);
      OneSortedList(s[1..], t[1..]);
    }
  }

  /** std::sort, in whose place an insertion from the back stands. */
  method Sort(paths: seq<string>) returns (sorted: seq<string>)
    ensures sorted == Sorted(paths)
  {
    sorted := [];
    for i := |paths| downto 0
      invariant sorted == Sorted(paths[i..])
    {
      assert paths[i..][1..] == paths[i + 1..];
      sorted := Insert(paths[i], sorted);
    }
  }

  // ---- Removing repetitions ----

  /** Of each run of equal paths, the last. */
  function Compacted(s: seq<string>): seq<string> {
    if |s| <= 1 then s
    else if s[0] == s[1] then Compacted(s[1..])
    else [s[0]] + Compacted(s[1..])
  }

  lemma {:induction false} CompactedSnoc(s: seq<string>, p: string)
    ensures Compacted(s + [p]) == if s != [] && s[|s| - 1] == p then Compacted(s) else Compacted(s) + [p]
    decreases |s|
  {
    var all := s + [p];
    if |s| == 1 {
      assert all[1..] == [p];
    } else if |s| > 1 {
      CompactedSnoc(s[1..], p);
      assert all[1..] == s[1..] + [p];
      assert all[0] == s[0] && all[1] == s[1];
    }
  }

  /** std::unique and the erase after it. */
  method Unique(paths: seq<string>) returns (distinct: seq<string>)
    ensures distinct == Compacted(paths)
  {
    distinct := [];
    for i := 0 to |paths|
      invariant distinct == Compacted(paths[..i])
      invariant i > 0 ==> distinct != [] && distinct[|distinct| - 1] == paths[i - 1]
    {
      CompactedSnoc(paths[..i], paths[i]);
      assert paths[..i + 1] == paths[..i] + [paths[i]];
      if distinct == [] || distinct[|distinct| - 1] != paths[i] {
        distinct := distinct + [paths[i]];
      }
    }
    assert paths[..|paths|] == paths;
  }

  ghost function Listed(paths: seq<string>): set<string> {
    set p | p in paths
  }

  lemma {:induction false} CompactedKeeps(s: seq<string>)
    requires Ascending(s)
    ensures StrictlyAscending(Compacted(s)) && Listed(Compacted(s)) == Listed(s)
    decreases |s|
  {
    if |s| > 1 {
      var tail := Compacted(s[1..]);
      CompactedKeeps(s[1..]);
      assert s == [s[0]] + s[1..];
      Trichotomy(s[0], s[1]);
      if s[0] != s[1] {
        forall k | 0 <= k < |tail| ensures Less(s[0], tail[k]) {
          assert tail[k] in Listed(tail);
          var j :| 0 <= j < |s[1..]| && s[1..][j] == tail[k];
          if j > 0 {
            assert s[j + 1] == tail[k];
            LessTransitive(s[0], s[1], s[j + 1]);
          }
        }
        assert Listed([s[0]] + tail) == {s[0]} + Listed(tail);
        assert Listed(s) == {s[0]} + Listed(s[1..]);
      } else {
        assert s[0] in s[1..];
      }
    }
  }

  /** The list the inspector works through. */
  function Canonical(paths: seq<string>): seq<string> {
    Compacted(Sorted(paths))
  }

  /** Sorting and compacting gives a strictly increasing list with the same paths. */
  lemma CanonicalKeeps(paths: seq<string>)
    ensures StrictlyAscending(Canonical(paths)) && Listed(Canonical(paths)) == Listed(paths)
  {
    SortedKeeps(paths);
    CompactedKeeps(Sorted(paths));
    forall p ensures p in Sorted(paths) <==> p in paths {
      assert p in multiset(Sorted(paths)) <==> p in multiset(paths);
    }
  }

  lemma {:induction false} OneStrictList(s: seq<string>, t: seq<string>)
    requires StrictlyAscending(s) && StrictlyAscending(t) && Listed(s) == Listed(t)
    ensures s == t
    decreases |s|
  {
    EmptyListed(s);
    EmptyListed(t);
    if s != [] {
      assert s[0] in Listed(t) && t[0] in Listed(s);
      var i :| 0 <= i < |t| && t[i] == s[0];
      var j :| 0 <= j < |s| && s[j] == t[0];
      Trichotomy(s[0], t[0]);
      assert s[0] == t[0];
      TailListed(s);
      TailListed(t);
      OneStrictList(s[1..], t[1..]);
    }
  }

  lemma EmptyListed(s: seq<string>)
    ensures Listed(s) == {} <==> s == []
  {
    if s != [] {
      assert s[0] in Listed(s);
    }
  }

  lemma TailListed(s: seq<string>)
    requires StrictlyAscending(s) && s != []
    ensures Listed(s[1..]) == Listed(s) - {s[0]}
  {
    Trichotomy(s[0], s[0]);
    assert s == [s[0]] + s[1..];
  }

  /** Neither the order nor the repetition of the collected paths matters. */
  lemma CanonicalOfSet(a: seq<string>, b: seq<string>)
    ensures Canonical(a) == Canonical(b) <==> Listed(a) == Listed(b)
  {
    CanonicalKeeps(a);
    CanonicalKeeps(b);
    if Listed(a) == Listed(b) {
      OneStrictList(Canonical(a), Canonical(b));
    }
  }
}
