/**
 Lexicographic order on strings, and sorted duplicate-free lists. Order on characters is order on code points, which is the byte order of UTF-8.
 */
module Strings {

  /** Lexicographic order. */
  predicate Less(a: string, b: string) {
    if b == [] then false
    else if a == [] then true
    else a[0] < b[0] || (a[0] == b[0] && Less(a[1..], b[1..]))
  }

  lemma {:induction false} LessIsTotal(a: string, b: string)
    ensures a == b || Less(a, b) || Less(b, a)
  {
    if a != [] && b != [] && a[0] == b[0] {
      LessIsTotal(a[1..], b[1..]);
      assert a == [a[0]] + a[1..] && b == [b[0]] + b[1..];
    }
  }

  lemma {:induction false} LessIsTransitive(a: string, b: string, c: string)
    requires Less(a, b) && Less(b, c)
    ensures Less(a, c)
  {
    if a != [] && a[0] == b[0] == c[0] {
      LessIsTransitive(a[1..], b[1..], c[1..]);
    }
  }

  lemma {:induction false} LessIsIrreflexive(a: string)
    ensures !Less(a, a)
  {
    if a != [] {
      LessIsIrreflexive(a[1..]);
    }
  }

  lemma LessIsAsymmetric(a: string, b: string)
    requires Less(a, b)
    ensures !Less(b, a)
  {
    if Less(b, a) {
      LessIsTransitive(a, b, a);
      LessIsIrreflexive(a);
    }
  }

  /** Strictly ascending, hence without duplicates. */
  ghost predicate Ascending(s: seq<string>) {
    forall i, j :: 0 <= i < j < |s| ==> Less(s[i], s[j])
  }

  function Elements(s: seq<string>): set<string> {
    set x | x in s
  }

  lemma HeadIsElement(s: seq<string>)
    ensures s != [] ==> s[0] in Elements(s)
  {
  }

  /** Two ascending lists of the same strings are the same list. */
  lemma {:induction false} AscendingIsUnique(s: seq<string>, t: seq<string>)
    requires Ascending(s) && Ascending(t) && Elements(s) == Elements(t)
    ensures s == t
  {
    if s == [] {
      assert Elements(t) == {};
      HeadIsElement(t);
    } else {
      assert s[0] in Elements(t);
      assert t != [];
      assert t[0] in Elements(s);
      SameHead(s, t);
      TailElements(s);
      TailElements(t);
      AscendingIsUnique(s[1..], t[1..]);
      assert s == [s[0]] + s[1..] && t == [t[0]] + t[1..];
    }
  }

  lemma SameHead(s: seq<string>, t: seq<string>)
    requires Ascending(s) && Ascending(t) && s != [] && t != [] && s[0] in t && t[0] in s
    ensures s[0] == t[0]
  {
    if s[0] != t[0] {
      var i :| 0 <= i < |t| && t[i] == s[0];
      var j :| 0 <= j < |s| && s[j] == t[0];
      assert Less(t[0], t[i]) && Less(s[0], s[j]);
      LessIsAsymmetric(s[0], t[0]);
    }
  }

  lemma TailElements(s: seq<string>)
    requires Ascending(s) && s != []
    ensures Ascending(s[1..]) && Elements(s[1..]) == Elements(s) - {s[0]}
  {
    forall x | x in s[1..] ensures x != s[0] {
      var i :| 0 <= i < |s[1..]| && s[1..][i] == x;
      assert Less(s[0], s[i + 1]);
      LessIsIrreflexive(s[0]);
    }
    forall x | x in s && x != s[0] ensures x in s[1..] {
      var i :| 0 <= i < |s| && s[i] == x;
      assert s[1..][i - 1] == x;
    }
  }

  /** Inserts a string where it belongs, unless it is there. */
  function Insert(x: string, s: seq<string>): seq<string> {
    if s == [] then [x]
    else if x == s[0] then s
    else if Less(x, s[0]) then [x] + s
    else [s[0]] + Insert(x, s[1..])
  }

  /** The ascending list of the strings of `s`: what sorting without duplicates yields. */
  function SortedUnique(s: seq<string>): seq<string> {
    if s == [] then [] else Insert(s[0], SortedUnique(s[1..]))
  }

  lemma {:induction false} InsertKeepsAscending(x: string, s: seq<string>)
    requires Ascending(s)
    ensures Ascending(Insert(x, s)) && Elements(Insert(x, s)) == Elements(s) + {x}
  {
    hide Less;
    if s == [] {
    } else if x == s[0] {
      assert x in Elements(s);
    } else if Less(x, s[0]) {
      forall j | 0 < j < |s| + 1 ensures Less(x, ([x] + s)[j]) {
        if j > 1 {
          LessIsTransitive(x, s[0], s[j - 1]);
        }
      }
    } else {
      LessIsTotal(x, s[0]);
      TailElements(s);
      InsertKeepsAscending(x, s[1..]);
      var rest := Insert(x, s[1..]);
      forall j | 0 <= j < |rest| ensures Less(s[0], rest[j]) {
        assert rest[j] in Elements(rest);
        if rest[j] != x {
          var i :| 0 <= i < |s[1..]| && s[1..][i] == rest[j];
          assert Less(s[0], s[i + 1]);
        }
      }
      assert Elements([s[0]] + rest) == Elements(rest) + {s[0]};
      assert s[0] in Elements(s);
    }
  }

  lemma {:induction false} SortedUniqueIsSorted(s: seq<string>)
    ensures Ascending(SortedUnique(s)) && Elements(SortedUnique(s)) == Elements(s)
  {
    if s != [] {
      SortedUniqueIsSorted(s[1..]);
      InsertKeepsAscending(s[0], SortedUnique(s[1..]));
      assert s == [s[0]] + s[1..];
    }
  }

  /** Sorting without duplicates sees only which strings occur. */
  lemma SortedUniqueOfElements(s: seq<string>, t: seq<string>)
    requires Elements(s) == Elements(t)
    ensures SortedUnique(s) == SortedUnique(t)
  {
    SortedUniqueIsSorted(s);
    SortedUniqueIsSorted(t);
    AscendingIsUnique(SortedUnique(s), SortedUnique(t));
  }

  /** A sorted duplicate-free list is left as it is. */
  lemma SortedUniqueOfAscending(s: seq<string>)
    requires Ascending(s)
    ensures SortedUnique(s) == s
  {
    SortedUniqueIsSorted(s);
    AscendingIsUnique(SortedUnique(s), s);
  }
}
