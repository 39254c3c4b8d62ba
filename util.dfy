/**
 * Shared vocabulary: optional values, sequence helpers that mirror the
 * JavaScript library calls the application relies on (Set construction,
 * filter, stable Array.prototype.sort, split/join) and the string
 * primitives behind its regular expressions (whitespace, ASCII classes,
 * trim, case mapping).
 */
module Util {

  datatype Option<T> = None | Some(value: T)

  // ---------------------------------------------------------------------
  // Sequences
  // ---------------------------------------------------------------------

  predicate NoDup<T(==)>(s: seq<T>) {
    forall i, j :: 0 <= i < j < |s| ==> s[i] != s[j]
  }

  /** Number of occurrences of x in s. */
  function Occurrences<T(==)>(s: seq<T>, x: T): (n: nat)
    ensures n <= |s|
    ensures n == 0 <==> x !in s
  {
    if s == [] then 0 else (if s[0] == x then 1 else 0) + Occurrences(s[1..], x)
  }

  /**
   * The elements of s in order of first appearance, each once: what
   * `new Set(s)` iterates over, or the keys of a Map filled from s.
   */
  function Distinct<T(==,!new)>(s: seq<T>): (r: seq<T>)
    ensures NoDup(r)
    ensures forall x :: x in r <==> x in s
    ensures |r| <= |s|
  {
    if s == [] then []
    else
      var d := Distinct(s[..|s| - 1]);
      assert s == s[..|s| - 1] + [s[|s| - 1]];
      if s[|s| - 1] in d then d else d + [s[|s| - 1]]
  }

  lemma {:induction false} DistinctOfNoDup<T(!new)>(s: seq<T>)
    requires NoDup(s)
    ensures Distinct(s) == s
  {
    if s != [] {
      var p := s[..|s| - 1];
      assert NoDup(p);
      DistinctOfNoDup(p);
      assert s[|s| - 1] !in p;
      assert p + [s[|s| - 1]] == s;
    }
  }

  lemma {:induction false} DistinctSnoc<T(!new)>(s: seq<T>, x: T)
    ensures Distinct(s + [x]) == if x in s then Distinct(s) else Distinct(s) + [x]
  {
    assert (s + [x])[..|s + [x]| - 1] == s;
  }

  /** `s.filter(y => y !== x)`. */
  function Remove<T(==)>(s: seq<T>, x: T): (r: seq<T>)
    ensures x !in r
    ensures forall i :: 0 <= i < |r| ==> r[i] in s && r[i] != x
    ensures forall i :: 0 <= i < |s| && s[i] != x ==> s[i] in r
    ensures |r| == |s| - Occurrences(s, x)
    ensures NoDup(s) ==> NoDup(r)
  {
    if s == [] then []
    else if s[0] == x then Remove(s[1..], x)
    else
      var t := Remove(s[1..], x);
      assert NoDup(s) ==> s[0] !in s[1..];
      [s[0]] + t
  }

  lemma {:induction false} RemoveAbsent<T>(s: seq<T>, x: T)
    requires x !in s
    ensures Remove(s, x) == s
  {
    if s != [] {
      RemoveAbsent(s[1..], x);
    }
  }

  /** Removing a member of a duplicate-free list shortens it by exactly one. */
  lemma {:induction false} RemoveMemberLength<T>(s: seq<T>, x: T)
    requires NoDup(s) && x in s
    ensures |Remove(s, x)| == |s| - 1
  {
    if s[0] == x {
      assert x !in s[1..];
    } else {
      RemoveMemberLength(s[1..], x);
    }
  }

  // ---------------------------------------------------------------------
  // Stable sort by a descending integer key (Array.prototype.sort with the
  // comparator (a, b) => key(b) - key(a); the ECMAScript sort is stable)
  // ---------------------------------------------------------------------

  predicate SortedDesc<T>(s: seq<T>, key: T -> int) {
    forall i, j :: 0 <= i < j < |s| ==> key(s[i]) >= key(s[j])
  }

  /** Puts x in front of the first element whose key does not exceed key(x). */
  function InsertDesc<T>(x: T, s: seq<T>, key: T -> int): (r: seq<T>)
    ensures |r| == |s| + 1
    ensures multiset(r) == multiset(s) + multiset{x}
    ensures forall k :: 0 <= k < |r| ==> r[k] == x || r[k] in s
  {
    if s == [] then [x]
    else if key(s[0]) > key(x) then
      var t := InsertDesc(x, s[1..], key);
      assert s == [s[0]] + s[1..];
      [s[0]] + t
    else
      assert s == [s[0]] + s[1..];
      [x] + s
  }

  lemma {:induction false} InsertDescSorted<T>(x: T, s: seq<T>, key: T -> int)
    requires SortedDesc(s, key)
    ensures SortedDesc(InsertDesc(x, s, key), key)
    decreases |s|
  {
    if s != [] {
      var r := InsertDesc(x, s, key);
      if key(s[0]) > key(x) {
        var t := InsertDesc(x, s[1..], key);
        InsertDescSorted(x, s[1..], key);
        assert r == [s[0]] + t;
        forall k | 0 <= k < |t| ensures key(s[0]) >= key(t[k]) {
          if t[k] != x {
            var m :| 0 <= m < |s[1..]| && s[1..][m] == t[k];
            assert s[m + 1] == t[k];
          }
        }
      } else {
        assert r == [x] + s;
        forall k | 0 <= k < |s| ensures key(x) >= key(s[k]) {
          assert key(s[0]) >= key(s[k]) || k == 0;
        }
      }
    }
  }

  function SortDesc<T>(s: seq<T>, key: T -> int): (r: seq<T>)
    ensures |r| == |s|
    ensures multiset(r) == multiset(s)
    ensures SortedDesc(r, key)
  {
    if s == [] then []
    else
      assert s == [s[0]] + s[1..];
      var t := SortDesc(s[1..], key);
      InsertDescSorted(s[0], t, key);
      InsertDesc(s[0], t, key)
  }

  /** The sorted sequence holds the input's elements and only those. */
  lemma SortDescMembers<T>(s: seq<T>, key: T -> int)
    ensures forall j :: 0 <= j < |SortDesc(s, key)| ==> SortDesc(s, key)[j] in s
    ensures forall j :: 0 <= j < |s| ==> s[j] in SortDesc(s, key)
  {
    var r := SortDesc(s, key);
    forall j | 0 <= j < |r| ensures r[j] in s {
      assert r[j] in multiset(r);
    }
    forall j | 0 <= j < |s| ensures s[j] in r {
      assert s[j] in multiset(s);
    }
  }

  lemma {:induction false} InsertDescLast<T>(x: T, s: seq<T>, key: T -> int)
    requires SortedDesc(s, key)
    ensures var r := InsertDesc(x, s, key);
      r[|r| - 1] == if s != [] && key(s[|s| - 1]) <= key(x) then s[|s| - 1] else x
  {
    if s != [] {
      var r := InsertDesc(x, s, key);
      if key(s[0]) > key(x) {
        var t := InsertDesc(x, s[1..], key);
        InsertDescLast(x, s[1..], key);
        assert r == [s[0]] + t;
        assert r[|r| - 1] == t[|t| - 1];
        if |s| > 1 {
          assert s[1..][|s| - 2] == s[|s| - 1];
        }
      } else {
        assert r == [x] + s;
        assert key(s[|s| - 1]) <= key(s[0]);
      }
    }
  }

  /**
   * Index of the element with the smallest key; among several with that
   * key, the one that comes last.
   */
  function LastMinIndex<T>(s: seq<T>, key: T -> int): (k: nat)
    requires |s| > 0
    ensures k < |s|
    ensures forall j :: 0 <= j < |s| ==> key(s[k]) <= key(s[j])
    ensures forall j :: k < j < |s| ==> key(s[j]) > key(s[k])
  {
    if |s| == 1 then 0
    else
      var k' := LastMinIndex(s[1..], key);
      assert forall j :: 1 <= j < |s| ==> s[j] == s[1..][j - 1];
      if key(s[1..][k']) <= key(s[0]) then k' + 1 else 0
  }

  /**
   * The last element of the stable descending sort is the input's last
   * element of smallest key.
   */
  lemma {:induction false} SortDescLast<T>(s: seq<T>, key: T -> int)
    requires |s| > 0
    ensures SortDesc(s, key)[|s| - 1] == s[LastMinIndex(s, key)]
  {
    if |s| > 1 {
      var t := SortDesc(s[1..], key);
      SortDescLast(s[1..], key);
      InsertDescLast(s[0], t, key);
    }
  }

  /** Sum of the keys of a sequence. */
  function SumKey<T>(s: seq<T>, key: T -> int): int {
    if s == [] then 0 else key(s[0]) + SumKey(s[1..], key)
  }

  lemma {:induction false} SumKeyInsertDesc<T>(x: T, s: seq<T>, key: T -> int)
    ensures SumKey(InsertDesc(x, s, key), key) == key(x) + SumKey(s, key)
  {
    if s != [] && key(s[0]) > key(x) {
      var r := InsertDesc(x, s, key);
      SumKeyInsertDesc(x, s[1..], key);
      assert r[1..] == InsertDesc(x, s[1..], key);
    }
  }

  /** Sorting does not change the sum of the keys. */
  lemma {:induction false} SumKeySortDesc<T>(s: seq<T>, key: T -> int)
    ensures SumKey(SortDesc(s, key), key) == SumKey(s, key)
  {
    if s != [] {
      SumKeySortDesc(s[1..], key);
      SumKeyInsertDesc(s[0], SortDesc(s[1..], key), key);
    }
  }

  /** Sum over the (distinct) ids of how often each occurs in xs. */
  function SumOccurrences<T(==)>(ids: seq<T>, xs: seq<T>): nat {
    if ids == [] then 0 else Occurrences(xs, ids[0]) + SumOccurrences(ids[1..], xs)
  }

  lemma {:induction false} OccurrencesOfNoDup<T>(ids: seq<T>, x: T)
    requires NoDup(ids)
    ensures Occurrences(ids, x) == if x in ids then 1 else 0
  {
    if ids != [] {
      assert NoDup(ids[1..]);
      OccurrencesOfNoDup(ids[1..], x);
      assert ids[0] == x ==> x !in ids[1..];
    }
  }

  lemma {:induction false} SumOccurrencesCons<T>(ids: seq<T>, x: T, xs: seq<T>)
    ensures SumOccurrences(ids, [x] + xs) == Occurrences(ids, x) + SumOccurrences(ids, xs)
  {
    if ids != [] {
      assert ([x] + xs)[1..] == xs;
      SumOccurrencesCons(ids[1..], x, xs);
    }
  }

  /**
   * When every element of xs is one of the distinct ids, the per-id
   * occurrence counts add up to |xs|: each element is counted exactly once.
   */
  lemma {:induction false} SumOccurrencesAll<T>(ids: seq<T>, xs: seq<T>)
    requires NoDup(ids)
    requires forall k :: 0 <= k < |xs| ==> xs[k] in ids
    ensures SumOccurrences(ids, xs) == |xs|
  {
    if xs == [] {
      SumOccurrencesNil(ids);
    } else {
      assert xs == [xs[0]] + xs[1..];
      SumOccurrencesCons(ids, xs[0], xs[1..]);
      OccurrencesOfNoDup(ids, xs[0]);
      SumOccurrencesAll(ids, xs[1..]);
    }
  }

  lemma {:induction false} SumOccurrencesNil<T>(ids: seq<T>)
    ensures SumOccurrences(ids, []) == 0
  {
    if ids != [] {
      SumOccurrencesNil(ids[1..]);
    }
  }

  /** One id's count never exceeds the total over a list containing it. */
  lemma {:induction false} OccurrencesLeSum<T>(ids: seq<T>, xs: seq<T>, a: T)
    requires a in ids
    ensures Occurrences(xs, a) <= SumOccurrences(ids, xs)
  {
    if ids[0] != a {
      OccurrencesLeSum(ids[1..], xs, a);
    }
  }

  /** Two different ids' counts together never exceed the total. */
  lemma {:induction false} TwoOccurrencesLeSum<T>(ids: seq<T>, xs: seq<T>, a: T, b: T)
    requires NoDup(ids) && a in ids && b in ids && a != b
    ensures Occurrences(xs, a) + Occurrences(xs, b) <= SumOccurrences(ids, xs)
  {
    assert NoDup(ids[1..]);
    if ids[0] == a {
      OccurrencesLeSum(ids[1..], xs, b);
    } else if ids[0] == b {
      OccurrencesLeSum(ids[1..], xs, a);
    } else {
      TwoOccurrencesLeSum(ids[1..], xs, a, b);
    }
  }

  // ---------------------------------------------------------------------
  // Characters
  // ---------------------------------------------------------------------

  /** ECMAScript WhiteSpace and LineTerminator: the class `\s` and what trim() strips. */
  predicate IsSpace(c: char) {
    c == '\t' || c == '\n' || c == '\U{000B}' || c == '\U{000C}' || c == '\r' || c == ' '
    || c == '\U{00A0}' || c == '\U{1680}' || ('\U{2000}' <= c <= '\U{200A}')
    || c == '\U{2028}' || c == '\U{2029}' || c == '\U{202F}' || c == '\U{205F}'
    || c == '\U{3000}' || c == '\U{FEFF}'
  }

  predicate IsUpper(c: char) { 'A' <= c <= 'Z' }
  predicate IsLower(c: char) { 'a' <= c <= 'z' }
  predicate IsLetter(c: char) { IsUpper(c) || IsLower(c) }
  predicate IsDigit(c: char) { '0' <= c <= '9' }
  predicate IsAlnum(c: char) { IsLetter(c) || IsDigit(c) }

  function UpperChar(c: char): (u: char)
    ensures IsLower(c) ==> IsUpper(u)
    ensures !IsLower(c) ==> u == c
  {
    if IsLower(c) then (c as int - 32) as char else c
  }

  function LowerChar(c: char): (l: char)
    ensures IsUpper(c) ==> IsLower(l)
    ensures !IsUpper(c) ==> l == c
  {
    if IsUpper(c) then (c as int + 32) as char else c
  }

  // ---------------------------------------------------------------------
  // Strings
  // ---------------------------------------------------------------------

  function ToUpper(s: string): (r: string)
    ensures |r| == |s|
    ensures forall i :: 0 <= i < |s| ==> r[i] == UpperChar(s[i])
  {
    if s == [] then [] else [UpperChar(s[0])] + ToUpper(s[1..])
  }

  function ToLower(s: string): (r: string)
    ensures |r| == |s|
    ensures forall i :: 0 <= i < |s| ==> r[i] == LowerChar(s[i])
  {
    if s == [] then [] else [LowerChar(s[0])] + ToLower(s[1..])
  }

  function TrimStart(s: string): (r: string)
    ensures |r| <= |s| && r == s[|s| - |r|..]
    ensures r == [] || !IsSpace(r[0])
    ensures forall i :: 0 <= i < |s| - |r| ==> IsSpace(s[i])
  {
    if s != [] && IsSpace(s[0]) then
      var r := TrimStart(s[1..]);
      assert forall i :: 1 <= i < |s| - |r| ==> s[i] == s[1..][i - 1];
      r
    else s
  }

  function TrimEnd(s: string): (r: string)
    ensures |r| <= |s| && r == s[..|r|]
    ensures r == [] || !IsSpace(r[|r| - 1])
    ensures forall i :: |r| <= i < |s| ==> IsSpace(s[i])
  {
    if s != [] && IsSpace(s[|s| - 1]) then TrimEnd(s[..|s| - 1]) else s
  }

  /** `s.trim()`. */
  function Trim(s: string): (r: string)
    ensures r == [] || (!IsSpace(r[0]) && !IsSpace(r[|r| - 1]))
  {
    var t := TrimStart(s);
    var r := TrimEnd(t);
    assert r != [] ==> r[0] == t[0];
    r
  }

  /** A string is blank (`!s.trim()`) iff it consists of whitespace only. */
  lemma TrimEmptyIff(s: string)
    ensures Trim(s) == [] <==> forall i :: 0 <= i < |s| ==> IsSpace(s[i])
  {
    var t := TrimStart(s);
    if forall i :: 0 <= i < |s| ==> IsSpace(s[i]) {
      assert t == [];
    } else {
      var i :| 0 <= i < |s| && !IsSpace(s[i]);
      assert i >= |s| - |t|;
      assert t[i - (|s| - |t|)] == s[i];
      assert TrimEnd(t) != [];
    }
  }

  predicate StartsWith(s: string, prefix: string) {
    |prefix| <= |s| && s[..|prefix|] == prefix
  }

  /** sub occurs in s starting at index i. */
  predicate OccursAt(s: string, sub: string, i: nat) {
    i + |sub| <= |s| && s[i..i + |sub|] == sub
  }

  /** `s.includes(sub)`. */
  predicate Contains(s: string, sub: string) {
    exists i: nat :: i <= |s| && OccursAt(s, sub, i)
  }

  /** `s.includes(sub)`, decided by scanning the start positions from `from` on. */
  function ContainsFrom(s: string, sub: string, from: nat): (b: bool)
    ensures b <==> exists i: nat :: from <= i && OccursAt(s, sub, i)
    decreases |s| + 1 - from
  {
    if from + |sub| > |s| then false
    else if OccursAt(s, sub, from) then true
    else ContainsFrom(s, sub, from + 1)
  }

  /** Index of the first occurrence of c, if any. */
  function IndexOf(s: string, c: char): (r: Option<nat>)
    ensures r.None? <==> c !in s
    ensures r.Some? ==> r.value < |s| && s[r.value] == c && c !in s[..r.value]
  {
    if s == [] then None
    else if s[0] == c then Some(0)
    else match IndexOf(s[1..], c)
      case None => None
      case Some(i) => assert s[..i + 1] == [s[0]] + s[1..][..i]; Some(i + 1)
  }

  /** Index of the last occurrence of c, if any (`lastIndexOf`, with -1 as None). */
  function LastIndexOf(s: string, c: char): (r: Option<nat>)
    ensures r.None? <==> c !in s
    ensures r.Some? ==> r.value < |s| && s[r.value] == c && c !in s[r.value + 1..]
  {
    if s == [] then None
    else if s[|s| - 1] == c then Some(|s| - 1)
    else
      var r := LastIndexOf(s[..|s| - 1], c);
      assert forall x :: x in s <==> x in s[..|s| - 1] || x == s[|s| - 1];
      if r.Some? then assert s[r.value + 1..] == s[..|s| - 1][r.value + 1..] + [s[|s| - 1]]; r else r
  }

  /** `s.split(sep)` for a one-character separator. */
  function Split(s: string, sep: char): (r: seq<string>)
    ensures |r| >= 1
    ensures forall k :: 0 <= k < |r| ==> sep !in r[k]
    decreases |s|
  {
    match IndexOf(s, sep)
      case None => [s]
      case Some(i) => [s[..i]] + Split(s[i + 1..], sep)
  }

  /** `parts.join(sep)`. */
  function Join(parts: seq<string>, sep: string): string {
    if parts == [] then ""
    else if |parts| == 1 then parts[0]
    else parts[0] + sep + Join(parts[1..], sep)
  }

  /** Splitting on a character and joining on it again gives the string back. */
  lemma {:induction false} JoinSplit(s: string, sep: char)
    ensures Join(Split(s, sep), [sep]) == s
    decreases |s|
  {
    match IndexOf(s, sep)
      case None =>
      case Some(i) =>
        var rest := Split(s[i + 1..], sep);
        JoinSplit(s[i + 1..], sep);
        var parts := [s[..i]] + rest;
        assert parts[0] == s[..i] && parts[1..] == rest && |parts| > 1;
        assert Join(parts, [sep]) == s[..i] + [sep] + Join(rest, [sep]);
        assert s == s[..i] + [sep] + s[i + 1..];
  }

  /** The first separator of p + [sep] + j is the one after p when p has none. */
  lemma {:induction false} IndexOfAfter(p: string, sep: char, j: string)
    requires sep !in p
    ensures IndexOf(p + [sep] + j, sep) == Some(|p|)
    decreases |p|
  {
    if p != [] {
      IndexOfAfter(p[1..], sep, j);
      assert (p + [sep] + j)[1..] == p[1..] + [sep] + j;
    }
  }

  /** Splitting a join of separator-free parts on the separator gives the parts back. */
  lemma {:induction false} SplitJoin(parts: seq<string>, sep: char)
    requires |parts| >= 1 && forall k :: 0 <= k < |parts| ==> sep !in parts[k]
    ensures Split(Join(parts, [sep]), sep) == parts
    decreases |parts|
  {
    if |parts| > 1 {
      var j := Join(parts[1..], [sep]);
      assert Join(parts, [sep]) == parts[0] + [sep] + j;
      SplitAfterFirst(parts[0], sep, j);
      SplitJoin(parts[1..], sep);
      assert parts == [parts[0]] + parts[1..];
    }
  }

  /** Splitting p + [sep] + j, where p has no separator, splits off p. */
  lemma SplitAfterFirst(p: string, sep: char, j: string)
    requires sep !in p
    ensures Split(p + [sep] + j, sep) == [p] + Split(j, sep)
  {
    var s := p + [sep] + j;
    IndexOfAfter(p, sep, j);
    assert s[..|p|] == p && s[|p| + 1..] == j;
  }

  // ---------------------------------------------------------------------
  // Grouping by a key (a reduce pushing onto `acc[key]`)
  // ---------------------------------------------------------------------

  /** Each element is pushed onto the list of its key, which is created on first use. */
  function GroupBy<T>(s: seq<T>, key: T -> string): map<string, seq<T>>
    decreases |s|
  {
    if s == [] then map[]
    else
      var acc := GroupBy(s[..|s| - 1], key);
      var c := s[|s| - 1];
      acc[key(c) := (if key(c) in acc then acc[key(c)] else []) + [c]]
  }

  /** The elements with key k, in order. */
  function Having<T(!new)>(s: seq<T>, key: T -> string, k: string): (r: seq<T>)
    ensures forall c :: c in r <==> c in s && key(c) == k
    ensures r == [] <==> forall c :: c in s ==> key(c) != k
    decreases |s|
  {
    if s == [] then []
    else
      var r := Having(s[..|s| - 1], key, k);
      assert forall c :: c in s <==> c in s[..|s| - 1] || c == s[|s| - 1] by {
        assert s == s[..|s| - 1] + [s[|s| - 1]];
      }
      if key(s[|s| - 1]) == k then r + [s[|s| - 1]] else r
  }

  /** Appending one element extends the list of its key and no other. */
  lemma HavingSnoc<T(!new)>(s: seq<T>, key: T -> string, x: T)
    ensures forall k :: Having(s + [x], key, k) == Having(s, key, k) + (if key(x) == k then [x] else [])
  {
    assert (s + [x])[..|s|] == s;
  }

  lemma HavingSnocAt<T(!new)>(s: seq<T>, key: T -> string, x: T, k: string)
    ensures Having(s + [x], key, k) == Having(s, key, k) + (if key(x) == k then [x] else [])
  {
    assert (s + [x])[..|s|] == s;
  }

  /** The groups are exactly the keys that occur, each holding its elements in order. */
  lemma {:induction false} GroupByMeaning<T(!new)>(s: seq<T>, key: T -> string)
    ensures forall k :: k in GroupBy(s, key) <==> exists c :: c in s && key(c) == k
    ensures forall k :: k in GroupBy(s, key) ==> GroupBy(s, key)[k] == Having(s, key, k)
    decreases |s|
  {
    if s != [] {
      var init := s[..|s| - 1];
      var c := s[|s| - 1];
      GroupByMeaning(init, key);
      assert s == init + [c];
      forall k ensures k in GroupBy(s, key) <==> exists x :: x in s && key(x) == k {
        if k == key(c) {
          assert c in s;
        } else {
          if exists x :: x in s && key(x) == k {
            var x :| x in s && key(x) == k;
            assert x in init;
          }
        }
      }
    }
  }

  /** Number of occurrences of c in s, plus one, is the number of pieces `split(c)` yields. */
  lemma {:induction false} SplitLength(s: string, sep: char)
    ensures |Split(s, sep)| == Occurrences(s, sep) + 1
    decreases |s|
  {
    match IndexOf(s, sep)
      case None =>
      case Some(i) =>
        assert |Split(s, sep)| == 1 + |Split(s[i + 1..], sep)|;
        SplitLength(s[i + 1..], sep);
        OccurrencesAtFirst(s, i, sep);
  }

  /** When s[i] is the first x in s, the occurrences of x are that one and those after it. */
  lemma OccurrencesAtFirst<T>(s: seq<T>, i: nat, x: T)
    requires i < |s| && s[i] == x && x !in s[..i]
    ensures Occurrences(s, x) == 1 + Occurrences(s[i + 1..], x)
  {
    OccurrencesAppend(s[..i], s[i..], x);
    OccurrencesAppend([s[i]], s[i + 1..], x);
    assert s == s[..i] + s[i..];
    assert s[i..] == [s[i]] + s[i + 1..];
  }

  lemma {:induction false} OccurrencesAppend<T>(a: seq<T>, b: seq<T>, x: T)
    ensures Occurrences(a + b, x) == Occurrences(a, x) + Occurrences(b, x)
  {
    if a != [] {
      assert (a + b)[0] == a[0];
      assert (a + b)[1..] == a[1..] + b;
      OccurrencesAppend(a[1..], b, x);
    } else {
      assert a + b == b;
    }
  }

  lemma OccurrencesSnoc<T>(s: seq<T>, x: T)
    ensures forall y :: Occurrences(s + [x], y) == Occurrences(s, y) + (if y == x then 1 else 0)
  {
    forall y
      ensures Occurrences(s + [x], y) == Occurrences(s, y) + (if y == x then 1 else 0)
    {
      OccurrencesAppend(s, [x], y);
    }
  }

  /** Replace each maximal run of whitespace by `repl` (`s.replace(/\s+/g, repl)`). */
  function ReplaceSpaceRuns(s: string, repl: string): (r: string)
    decreases |s|
  {
    if s == [] then []
    else if IsSpace(s[0]) then repl + ReplaceSpaceRuns(TrimStart(s), repl)
    else [s[0]] + ReplaceSpaceRuns(s[1..], repl)
  }

  /** When the replacement holds no whitespace, no whitespace survives. */
  lemma {:induction false} ReplaceSpaceRunsNoSpace(s: string, repl: string)
    requires forall i :: 0 <= i < |repl| ==> !IsSpace(repl[i])
    ensures forall i :: 0 <= i < |ReplaceSpaceRuns(s, repl)| ==> !IsSpace(ReplaceSpaceRuns(s, repl)[i])
    decreases |s|
  {
    if s != [] {
      if IsSpace(s[0]) {
        ReplaceSpaceRunsNoSpace(TrimStart(s), repl);
      } else {
        ReplaceSpaceRunsNoSpace(s[1..], repl);
      }
    }
  }

  lemma {:induction false} RemoveSpacesAppend(a: string, b: string)
    ensures RemoveSpaces(a + b) == RemoveSpaces(a) + RemoveSpaces(b)
    decreases |a|
  {
    if a != [] {
      RemoveSpacesAppend(a[1..], b);
      assert (a + b)[1..] == a[1..] + b;
      assert (a + b)[0] == a[0];
      if IsSpace(a[0]) {
        assert RemoveSpaces(a + b) == RemoveSpaces(a[1..] + b);
        assert RemoveSpaces(a) == RemoveSpaces(a[1..]);
      } else {
        assert RemoveSpaces(a + b) == [a[0]] + RemoveSpaces(a[1..] + b);
        assert RemoveSpaces(a) == [a[0]] + RemoveSpaces(a[1..]);
      }
    } else {
      assert a + b == b;
    }
  }

  lemma {:induction false} RemoveSpacesNone(s: string)
    requires forall i :: 0 <= i < |s| ==> !IsSpace(s[i])
    ensures RemoveSpaces(s) == s
    decreases |s|
  {
    if s != [] {
      RemoveSpacesNone(s[1..]);
      assert s == [s[0]] + s[1..];
    }
  }

  lemma {:induction false} RemoveSpacesAll(s: string)
    requires forall i :: 0 <= i < |s| ==> IsSpace(s[i])
    ensures RemoveSpaces(s) == []
    decreases |s|
  {
    if s != [] {
      RemoveSpacesAll(s[1..]);
    }
  }

  /** `s.replace(/\s/g, '')`. */
  function RemoveSpaces(s: string): (r: string)
    ensures |r| <= |s|
    ensures forall i :: 0 <= i < |r| ==> !IsSpace(r[i])
  {
    if s == [] then []
    else if IsSpace(s[0]) then RemoveSpaces(s[1..])
    else [s[0]] + RemoveSpaces(s[1..])
  }

  /** Default `Array.prototype.sort()` order on strings: code-unit lexicographic. */
  predicate StringLe(a: string, b: string) {
    a == [] || (b != [] && (a[0] < b[0] || (a[0] == b[0] && StringLe(a[1..], b[1..]))))
  }

  lemma {:induction false} StringLeTotal(a: string, b: string)
    ensures StringLe(a, b) || StringLe(b, a)
  {
    if a != [] && b != [] && a[0] == b[0] {
      StringLeTotal(a[1..], b[1..]);
    }
  }

  lemma {:induction false} StringLeAntisymmetric(a: string, b: string)
    requires StringLe(a, b) && StringLe(b, a)
    ensures a == b
  {
    if a != [] && b != [] {
      StringLeAntisymmetric(a[1..], b[1..]);
      assert a == [a[0]] + a[1..];
      assert b == [b[0]] + b[1..];
    }
  }

  lemma {:induction false} StringLeTransitive(a: string, b: string, c: string)
    requires StringLe(a, b) && StringLe(b, c)
    ensures StringLe(a, c)
  {
    if a != [] && b != [] && c != [] && a[0] == b[0] && b[0] == c[0] {
      StringLeTransitive(a[1..], b[1..], c[1..]);
    }
  }

  predicate SortedStrings(s: seq<string>) {
    forall i, j :: 0 <= i < j < |s| ==> StringLe(s[i], s[j])
  }

  function InsertString(x: string, s: seq<string>): (r: seq<string>)
    ensures multiset(r) == multiset(s) + multiset{x}
    ensures forall k :: 0 <= k < |r| ==> r[k] == x || r[k] in s
  {
    if s == [] then [x]
    else if StringLe(x, s[0]) then
      assert s == [s[0]] + s[1..];
      [x] + s
    else
      var t := InsertString(x, s[1..]);
      assert s == [s[0]] + s[1..];
      [s[0]] + t
  }

  lemma {:induction false} InsertStringSorted(x: string, s: seq<string>)
    requires SortedStrings(s)
    ensures SortedStrings(InsertString(x, s))
    decreases |s|
  {
    if s != [] {
      var r := InsertString(x, s);
      if StringLe(x, s[0]) {
        assert r == [x] + s;
        forall k | 0 < k < |s| ensures StringLe(x, s[k]) {
          StringLeTransitive(x, s[0], s[k]);
        }
      } else {
        StringLeTotal(x, s[0]);
        var t := InsertString(x, s[1..]);
        InsertStringSorted(x, s[1..]);
        assert r == [s[0]] + t;
        forall k | 0 <= k < |t| ensures StringLe(s[0], t[k]) {
          if t[k] != x {
            var m :| 0 <= m < |s[1..]| && s[1..][m] == t[k];
            assert s[m + 1] == t[k];
          }
        }
      }
    }
  }

  /** `Array.from(strings).sort()`. */
  function SortStrings(s: seq<string>): (r: seq<string>)
    ensures multiset(r) == multiset(s)
    ensures SortedStrings(r)
  {
    if s == [] then []
    else
      assert s == [s[0]] + s[1..];
      var t := SortStrings(s[1..]);
      InsertStringSorted(s[0], t);
      InsertString(s[0], t)
  }

  // ---------------------------------------------------------------------
  // Stable sort by a comparison (a total preorder)
  // ---------------------------------------------------------------------

  ghost predicate TotalPreorder<T(!new)>(le: (T, T) -> bool) {
    && (forall a, b :: le(a, b) || le(b, a))
    && (forall a, b, c :: le(a, b) && le(b, c) ==> le(a, c))
  }

  predicate SortedBy<T>(s: seq<T>, le: (T, T) -> bool) {
    forall i, j :: 0 <= i < j < |s| ==> le(s[i], s[j])
  }

  /** Puts x in front of the first element it does not exceed. */
  function InsertBy<T(!new)>(x: T, s: seq<T>, le: (T, T) -> bool): (r: seq<T>)
    ensures |r| == |s| + 1
    ensures multiset(r) == multiset(s) + multiset{x}
    ensures forall k :: 0 <= k < |r| ==> r[k] == x || r[k] in s
  {
    if s == [] then [x]
    else if le(x, s[0]) then
      assert s == [s[0]] + s[1..];
      [x] + s
    else
      var t := InsertBy(x, s[1..], le);
      assert s == [s[0]] + s[1..];
      [s[0]] + t
  }

  lemma {:induction false} InsertBySorted<T(!new)>(x: T, s: seq<T>, le: (T, T) -> bool)
    requires TotalPreorder(le) && SortedBy(s, le)
    ensures SortedBy(InsertBy(x, s, le), le)
    decreases |s|
  {
    if s != [] {
      var r := InsertBy(x, s, le);
      if le(x, s[0]) {
        assert r == [x] + s;
        forall k | 0 < k < |s| ensures le(x, s[k]) {
          assert le(s[0], s[k]);
        }
      } else {
        assert le(s[0], x);
        var t := InsertBy(x, s[1..], le);
        InsertBySorted(x, s[1..], le);
        assert r == [s[0]] + t;
        forall k | 0 <= k < |t| ensures le(s[0], t[k]) {
          if t[k] != x {
            var m :| 0 <= m < |s[1..]| && s[1..][m] == t[k];
            assert s[m + 1] == t[k];
          }
        }
      }
    }
  }

  /** A stable insertion sort, as `Array.prototype.sort` with a comparator. */
  function SortBy<T(!new)>(s: seq<T>, le: (T, T) -> bool): (r: seq<T>)
    requires TotalPreorder(le)
    ensures |r| == |s|
    ensures multiset(r) == multiset(s)
    ensures SortedBy(r, le)
  {
    if s == [] then []
    else
      assert s == [s[0]] + s[1..];
      var t := SortBy(s[1..], le);
      InsertBySorted(s[0], t, le);
      InsertBy(s[0], t, le)
  }

  /** The sequence without index k (a one-element splice). */
  function RemoveAt<T>(s: seq<T>, k: nat): (r: seq<T>)
    requires k < |s|
    ensures |r| == |s| - 1
    ensures forall i :: 0 <= i < k ==> r[i] == s[i]
    ensures forall i :: k <= i < |r| ==> r[i] == s[i + 1]
    ensures multiset(r) + multiset{s[k]} == multiset(s)
  {
    assert s == s[..k] + [s[k]] + s[k + 1..];
    s[..k] + s[k + 1..]
  }

  /** The sequence with x inserted before index k (a zero-deletion splice). */
  function InsertAt<T>(s: seq<T>, k: nat, x: T): (r: seq<T>)
    requires k <= |s|
    ensures |r| == |s| + 1 && r[k] == x
    ensures forall i :: 0 <= i < k ==> r[i] == s[i]
    ensures forall i :: k < i < |r| ==> r[i] == s[i - 1]
    ensures multiset(r) == multiset(s) + multiset{x}
  {
    assert s == s[..k] + s[k..];
    s[..k] + [x] + s[k..]
  }

  /** Moving the element at d to index k keeps the multiset, and cutting it out again gives the list without it. */
  lemma MoveFacts<T>(s: seq<T>, d: nat, k: nat)
    requires d < |s| && k < |s|
    ensures multiset(InsertAt(RemoveAt(s, d), k, s[d])) == multiset(s)
    ensures InsertAt(RemoveAt(s, d), k, s[d])[k] == s[d]
    ensures RemoveAt(InsertAt(RemoveAt(s, d), k, s[d]), k) == RemoveAt(s, d)
  {
    var rest := RemoveAt(s, d);
    var r := InsertAt(rest, k, s[d]);
    assert RemoveAt(r, k) == rest;
  }

  /** Head and tail of a concatenation with a non-empty left part. */
  lemma ConsAppend<T>(a: seq<T>, b: seq<T>)
    requires a != []
    ensures (a + b)[0] == a[0] && (a + b)[1..] == a[1..] + b
  {
  }

  /** Dropping the left part of a concatenation leaves the right part. */
  lemma DropAppend<T>(a: seq<T>, b: seq<T>)
    ensures (a + b)[|a|..] == b
  {
  }

  /** A non-empty prefix is the first element followed by a prefix of the tail. */
  lemma TakeCons<T>(s: seq<T>, k: nat)
    requires 0 < k <= |s|
    ensures s[..k] == [s[0]] + s[1..][..k - 1]
  {
  }

  /**
   * Two distinct positions of a sub-multiset come from two distinct
   * positions of the larger sequence.
   */
  lemma TwoIndicesOfSub<T>(a: seq<T>, b: seq<T>, i: nat, j: nat)
    requires multiset(b) <= multiset(a) && i < j < |b|
    ensures exists p, q :: 0 <= p < |a| && 0 <= q < |a| && p != q && a[p] == b[i] && a[q] == b[j]
  {
    assert b == b[..i] + [b[i]] + b[i + 1..j] + [b[j]] + b[j + 1..];
    assert multiset{b[i]} + multiset{b[j]} <= multiset(b);
    assert b[i] in multiset(a);
    var p :| 0 <= p < |a| && a[p] == b[i];
    var rest := RemoveAt(a, p);
    assert multiset(rest)[b[j]] >= 1 by {
      assert multiset(b)[b[j]] >= (if b[i] == b[j] then 2 else 1);
      assert multiset(rest)[b[j]] == multiset(a)[b[j]] - (if b[j] == a[p] then 1 else 0);
    }
    var q' :| 0 <= q' < |rest| && rest[q'] == b[j];
    var q := if q' < p then q' else q' + 1;
    assert a[q] == b[j];
  }

  /** A rearrangement of a duplicate-free sequence is duplicate-free. */
  lemma NoDupOfSub<T>(a: seq<T>, b: seq<T>)
    requires NoDup(a) && multiset(b) <= multiset(a)
    ensures NoDup(b)
  {
    forall i, j | 0 <= i < j < |b| ensures b[i] != b[j] {
      TwoIndicesOfSub(a, b, i, j);
    }
  }

  // ---------------------------------------------------------------------
  // Decimal numerals (`String(n)`)
  // ---------------------------------------------------------------------

  /** The next free id of a table (getNextCourseId, getNextInstructorId): one more than the largest id, or 1 for an empty table. */
  function NextId(ids: seq<int>): (r: int)
    ensures forall i :: 0 <= i < |ids| ==> ids[i] < r
    ensures ids == [] ==> r == 1
    ensures ids != [] ==> r - 1 in ids
  {
    if ids == [] then 1
    else if |ids| == 1 then ids[0] + 1
    else
      var p := NextId(ids[..|ids| - 1]);
      assert forall i :: 0 <= i < |ids| - 1 ==> ids[i] == ids[..|ids| - 1][i];
      assert p - 1 in ids[..|ids| - 1];
      if ids[|ids| - 1] + 1 > p then ids[|ids| - 1] + 1 else p
  }

  function DigitChar(d: nat): (c: char)
    requires d < 10
    ensures IsDigit(c)
  {
    ('0' as int + d) as char
  }

  /** The decimal numeral of n, without leading zeros. */
  function NatToString(n: nat): (r: string)
    ensures |r| >= 1 && forall i :: 0 <= i < |r| ==> IsDigit(r[i])
    ensures n >= 10 ==> r[0] != '0'
    decreases n
  {
    if n < 10 then [DigitChar(n)] else NatToString(n / 10) + [DigitChar(n % 10)]
  }

  /** `String(n)` for an integer. */
  function IntToString(n: int): string {
    if n < 0 then "-" + NatToString(-n) else NatToString(n)
  }

  predicate IsHexDigit(c: char) {
    ('0' <= c <= '9') || ('a' <= c <= 'f') || ('A' <= c <= 'F')
  }

  /**
   * `ObjectId.isValid` on a string under Mongoose 7 and later (bson 5 and
   * later): 24 hexadecimal characters. It is also what a query or a
   * document needs for an id given as text to be cast to an object id; any
   * other string makes the cast throw.
   */
  predicate IsObjectId(s: string) {
    |s| == 24 && forall i :: 0 <= i < |s| ==> IsHexDigit(s[i])
  }
}
