/** Sequence and string helpers shared by the modules of the model. */
module Seqs {

  /** The elements of `s` that satisfy `p`, in their original order
      (Rust `iter().filter(p).collect()`). */
  function Filter<T>(s: seq<T>, p: T -> bool): (r: seq<T>)
    ensures |r| <= |s|
  {
    if s == [] then [] else (if p(s[0]) then [s[0]] else []) + Filter(s[1..], p)
  }

  /** What filtering keeps: exactly the elements of `s` that satisfy `p`. */
  lemma {:induction false} FilterMembers<T>(s: seq<T>, p: T -> bool)
    ensures forall x :: x in Filter(s, p) ==> x in s && p(x)
    ensures forall x :: x in s && p(x) ==> x in Filter(s, p)
  {
    if s != [] {
      FilterMembers(s[1..], p);
      assert forall x :: x in s ==> x == s[0] || x in s[1..];
    }
  }

  /** What filtering keeps, with multiplicity: every occurrence of an element satisfying `p`,
      and nothing else. */
  lemma {:induction false} FilterCount<T>(s: seq<T>, p: T -> bool)
    ensures forall x :: multiset(Filter(s, p))[x] == if p(x) then multiset(s)[x] else 0
  {
    if s != [] {
      FilterCount(s[1..], p);
      FilterHeadMultiset(s, p);
      assert multiset(s) == multiset{s[0]} + multiset(s[1..]) by { assert s == [s[0]] + s[1..]; }
    }
  }

  /** Filtering distributes over concatenation: the order of what is kept is the order of `s`. */
  lemma {:induction false} FilterConcat<T>(a: seq<T>, b: seq<T>, p: T -> bool)
    ensures Filter(a + b, p) == Filter(a, p) + Filter(b, p)
  {
    if a != [] {
      assert (a + b)[0] == a[0];
      assert (a + b)[1..] == a[1..] + b;
      FilterConcat(a[1..], b, p);
    } else {
      assert a + b == b;
    }
  }

  /** Filtering a sequence with one more element at its end. */
  lemma {:induction false} FilterSnoc<T>(s: seq<T>, p: T -> bool)
    requires s != []
    ensures Filter(s, p) == Filter(s[..|s| - 1], p) + (if p(s[|s| - 1]) then [s[|s| - 1]] else [])
  {
    if |s| > 1 {
      var init := s[..|s| - 1];
      assert init[1..] == s[1..][..|s| - 2];
      assert s[1..][|s| - 2] == s[|s| - 1];
      FilterSnoc(s[1..], p);
      AppendAssoc(if p(s[0]) then [s[0]] else [], Filter(init[1..], p), if p(s[|s| - 1]) then [s[|s| - 1]] else []);
    }
  }

  /** Filtering twice by the same predicate changes nothing the second time. */
  lemma {:induction false} FilterIdempotent<T>(s: seq<T>, p: T -> bool)
    ensures Filter(Filter(s, p), p) == Filter(s, p)
  {
    if s != [] {
      FilterIdempotent(s[1..], p);
      var head := if p(s[0]) then [s[0]] else [];
      FilterConcat(head, Filter(s[1..], p), p);
    }
  }

  /** Everything in `s` satisfies `p` exactly when filtering keeps all of `s`. */
  lemma {:induction false} FilterAll<T>(s: seq<T>, p: T -> bool)
    requires forall x :: x in s ==> p(x)
    ensures Filter(s, p) == s
  {
    if s != [] {
      FilterAll(s[1..], p);
    }
  }

  /** Filtering keeps nothing when no element satisfies `p`. */
  lemma {:induction false} FilterNone<T>(s: seq<T>, p: T -> bool)
    requires forall x :: x in s ==> !p(x)
    ensures Filter(s, p) == []
  {
    if s != [] {
      FilterNone(s[1..], p);
    }
  }

  /** Two complementary filters split a sequence: their lengths add up to its length. */
  lemma {:induction false} FilterSplitCount<T>(s: seq<T>, p: T -> bool, q: T -> bool)
    requires forall x :: x in s ==> (p(x) <==> !q(x))
    ensures |Filter(s, p)| + |Filter(s, q)| == |s|
  {
    if s != [] {
      FilterSplitCount(s[1..], p, q);
    }
  }

  /** `f` applied to every element of `s`, in order (Rust `iter().map(f)`). */
  function MapSeq<A, B>(s: seq<A>, f: A -> B): seq<B> {
    if s == [] then [] else MapSeq(s[..|s| - 1], f) + [f(s[|s| - 1])]
  }

  /** The image of `s` under `f`, element by element. */
  lemma {:induction false} MapSeqAt<A, B>(s: seq<A>, f: A -> B)
    ensures |MapSeq(s, f)| == |s|
    ensures forall i :: 0 <= i < |s| ==> MapSeq(s, f)[i] == f(s[i])
  {
    if s != [] {
      var init := s[..|s| - 1];
      MapSeqAt(init, f);
      assert forall i :: 0 <= i < |init| ==> init[i] == s[i];
    }
  }

  /** What mapping yields: exactly the images of the elements of `s`. */
  lemma {:induction false} MapSeqMembers<A, B>(s: seq<A>, f: A -> B)
    ensures forall y :: y in MapSeq(s, f) <==> exists x :: x in s && y == f(x)
  {
    if s != [] {
      var init := s[..|s| - 1];
      MapSeqMembers(init, f);
      assert forall x :: x in s <==> x in init || x == s[|s| - 1];
    }
  }

  /** The multiset of what filtering keeps, element by element from the front. */
  lemma FilterHeadMultiset<T>(s: seq<T>, p: T -> bool)
    requires s != []
    ensures multiset(Filter(s, p)) == (if p(s[0]) then multiset{s[0]} else multiset{}) + multiset(Filter(s[1..], p))
  {
  }

  /** Four filters that between them keep each element exactly once split the sequence. */
  lemma {:induction false} FilterPartition4<T>(s: seq<T>, a: T -> bool, b: T -> bool, c: T -> bool, d: T -> bool)
    requires forall x :: x in s ==>
      (if a(x) then 1 else 0) + (if b(x) then 1 else 0) + (if c(x) then 1 else 0) + (if d(x) then 1 else 0) == 1
    ensures multiset(Filter(s, a)) + multiset(Filter(s, b)) + multiset(Filter(s, c)) + multiset(Filter(s, d)) == multiset(s)
  {
    if s != [] {
      var h, t := s[0], s[1..];
      assert s == [h] + t;
      assert forall x :: x in t ==> x in s;
      FilterPartition4(t, a, b, c, d);
      FilterHeadMultiset(s, a);
      FilterHeadMultiset(s, b);
      FilterHeadMultiset(s, c);
      FilterHeadMultiset(s, d);
      assert h in s;
      var ha := if a(h) then multiset{h} else multiset{};
      var hb := if b(h) then multiset{h} else multiset{};
      var hc := if c(h) then multiset{h} else multiset{};
      var hd := if d(h) then multiset{h} else multiset{};
      assert ha + hb + hc + hd == multiset{h};
      SumOfFour(ha, hb, hc, hd, multiset(Filter(t, a)), multiset(Filter(t, b)),
                multiset(Filter(t, c)), multiset(Filter(t, d)));
    }
  }

  /** Rearranging a sum of eight multisets. */
  lemma SumOfFour<T>(ha: multiset<T>, hb: multiset<T>, hc: multiset<T>, hd: multiset<T>,
                     ta: multiset<T>, tb: multiset<T>, tc: multiset<T>, td: multiset<T>)
    ensures (ha + ta) + (hb + tb) + (hc + tc) + (hd + td) == (ha + hb + hc + hd) + (ta + tb + tc + td)
  {
  }

  /** Everything that mapping yields satisfies `q` when every image does. */
  lemma {:induction false} MapSeqInto<A, B>(s: seq<A>, f: A -> B, q: B -> bool)
    requires forall x :: q(f(x))
    ensures forall y :: y in MapSeq(s, f) ==> q(y)
  {
    if s != [] {
      MapSeqInto(s[..|s| - 1], f, q);
    }
  }

  /** The set of elements of a sequence. */
  function ToSet<T>(s: seq<T>): set<T> {
    set x | x in s
  }

  /** No element occurs twice. */
  ghost predicate NoDup<T>(s: seq<T>) {
    forall i, j :: 0 <= i < j < |s| ==> s[i] != s[j]
  }

  lemma AppendAssoc<T>(a: seq<T>, b: seq<T>, c: seq<T>)
    ensures (a + b) + c == a + (b + c)
  {
  }

  /** Appending an element not yet present keeps a sequence free of duplicates. */
  lemma NoDupSnoc<T>(s: seq<T>, x: T)
    requires NoDup(s) && x !in s
    ensures NoDup(s + [x])
  {
    var t := s + [x];
    forall i, j | 0 <= i < j < |t| ensures t[i] != t[j] {
      if j == |s| {
        assert t[i] == s[i];
      }
    }
  }

  /** A sequence without duplicates has as many elements as its set. */
  lemma {:induction false} NoDupCard<T>(s: seq<T>)
    requires NoDup(s)
    ensures |ToSet(s)| == |s|
  {
    if s != [] {
      var init := s[..|s| - 1];
      assert NoDup(init) by {
        forall i, j | 0 <= i < j < |init| ensures init[i] != init[j] {
          assert init[i] == s[i] && init[j] == s[j];
        }
      }
      NoDupCard(init);
      assert s[|s| - 1] !in ToSet(init) by {
        forall i | 0 <= i < |init| ensures init[i] != s[|s| - 1] {
          assert init[i] == s[i];
        }
      }
      assert ToSet(s) == ToSet(init) + {s[|s| - 1]} by {
        assert forall x :: x in s <==> x in init || x == s[|s| - 1];
      }
    }
  }

  /** `order` lists every element of `keys` exactly once (an iteration order of a hash map). */
  ghost predicate Enumerates<K>(order: seq<K>, keys: set<K>) {
    NoDup(order) && (forall k :: k in keys ==> k in order) && (forall k :: k in order ==> k in keys)
  }

  /** The parts separated by `sep` (Rust `join`). */
  function Join(parts: seq<string>, sep: string): string {
    if |parts| == 0 then ""
    else if |parts| == 1 then parts[0]
    else parts[0] + sep + Join(parts[1..], sep)
  }

  /** `p` is a prefix of `s`. */
  predicate IsPrefix(p: string, s: string) {
    |p| <= |s| && s[..|p|] == p
  }

  /** `p` occurs in `s` starting at position `i`. */
  predicate OccursAt(s: string, p: string, i: nat) {
    i + |p| <= |s| && s[i..i + |p|] == p
  }

  /** `p` occurs in `s` as a contiguous substring (Rust `str::contains`). */
  function Contains(s: string, p: string): (b: bool)
    ensures b <==> exists i: nat :: OccursAt(s, p, i)
  {
    ContainsFrom(s, p, 0)
  }

  /** `p` occurs in `s` at some position `k` or later. */
  function ContainsFrom(s: string, p: string, k: nat): (b: bool)
    requires k <= |s|
    ensures b <==> exists i: nat :: k <= i && OccursAt(s, p, i)
    decreases |s| - k
  {
    if OccursAt(s, p, k) then true
    else if k == |s| then
      assert forall i: nat :: k <= i && OccursAt(s, p, i) ==> i == k;
      false
    else
      var rest := ContainsFrom(s, p, k + 1);
      assert forall i: nat :: k <= i && OccursAt(s, p, i) ==> k + 1 <= i;
      rest
  }

  /** A substring of `a` is a substring of `a + b`. */
  lemma ContainsLeft(a: string, b: string, p: string)
    requires Contains(a, p)
    ensures Contains(a + b, p)
  {
    var i: nat :| OccursAt(a, p, i);
    assert (a + b)[i..i + |p|] == a[i..i + |p|];
    assert OccursAt(a + b, p, i);
  }

  /** A substring of `b` is a substring of `a + b`. */
  lemma ContainsRight(a: string, b: string, p: string)
    requires Contains(b, p)
    ensures Contains(a + b, p)
  {
    var i: nat :| OccursAt(b, p, i);
    assert (a + b)[|a| + i..|a| + i + |p|] == b[i..i + |p|];
    assert OccursAt(a + b, p, |a| + i);
  }

  /** A substring of the middle part is a substring of the whole. */
  lemma ContainsAround(a: string, b: string, c: string, p: string)
    requires Contains(b, p)
    ensures Contains(a + b + c, p)
  {
    ContainsRight(a, b, p);
    ContainsLeft(a + b, c, p);
  }

  /** A substring of one of the parts is a substring of their join. */
  lemma {:induction false} JoinContains(parts: seq<string>, sep: string, k: nat, p: string)
    requires k < |parts| && Contains(parts[k], p)
    ensures Contains(Join(parts, sep), p)
  {
    if |parts| == 1 {
    } else if k == 0 {
      ContainsLeft(parts[0], sep, p);
      ContainsLeft(parts[0] + sep, Join(parts[1..], sep), p);
    } else {
      JoinContains(parts[1..], sep, k - 1, p);
      ContainsRight(parts[0] + sep, Join(parts[1..], sep), p);
    }
  }

  /** ASCII lower-casing of one character. */
  function LowerChar(c: char): char {
    if 'A' <= c <= 'Z' then (c as int + 32) as char else c
  }

  /** ASCII lower-casing of a string (the model of Rust `to_lowercase`). */
  function Lower(s: string): (r: string)
    ensures |r| == |s| && forall i :: 0 <= i < |s| ==> r[i] == LowerChar(s[i])
  {
    seq(|s|, i requires 0 <= i < |s| => LowerChar(s[i]))
  }

  /** ASCII white space (the model of Rust's `char::is_whitespace`). */
  predicate IsSpace(c: char) {
    c == ' ' || c == '\t' || c == '\n' || c == '\r' || c == '\U{B}' || c == '\U{C}'
  }

  /** `s.trim().is_empty()`: every character of `s` is white space. */
  predicate IsBlank(s: string) {
    forall i :: 0 <= i < |s| ==> IsSpace(s[i])
  }

  /** The pieces of `s` between occurrences of `c` (Rust `str::split` on a character): always
      at least one piece, and none of them holds `c`. */
  function Split(s: string, c: char): (r: seq<string>)
    ensures |r| >= 1
    ensures forall i :: 0 <= i < |r| ==> c !in r[i]
  {
    if |s| == 0 then [""]
    else
      var rest := Split(s[1..], c);
      if s[0] == c then [""] + rest
      else [[s[0]] + rest[0]] + rest[1..]
  }

  /** Joining the pieces with the separator gives back the string. */
  lemma {:induction false} SplitJoin(s: string, c: char)
    ensures Join(Split(s, c), [c]) == s
  {
    if |s| > 0 {
      var rest := Split(s[1..], c);
      SplitJoin(s[1..], c);
      if s[0] == c {
        assert Split(s, c) == [""] + rest;
        assert Join([""] + rest, [c]) == "" + [c] + Join(rest, [c]);
        assert s == [c] + s[1..];
      } else if |rest| == 1 {
        assert Split(s, c) == [[s[0]] + rest[0]];
        assert s == [s[0]] + s[1..];
      } else {
        var r := Split(s, c);
        assert r == [[s[0]] + rest[0]] + rest[1..];
        assert r[1..] == rest[1..];
        assert Join(r, [c]) == [s[0]] + rest[0] + [c] + Join(rest[1..], [c]);
        assert Join(rest, [c]) == rest[0] + [c] + Join(rest[1..], [c]);
        assert s == [s[0]] + s[1..];
      }
    }
  }

  /** A string without the separator is a single piece. */
  lemma {:induction false} SplitWithout(a: string, c: char)
    requires c !in a
    ensures Split(a, c) == [a]
  {
    if |a| > 0 {
      SplitWithout(a[1..], c);
      assert a == [a[0]] + a[1..];
    }
  }

  /** A first piece without the separator, then the separator: the rest splits on its own. */
  lemma {:induction false} SplitAfter(a: string, c: char, b: string)
    requires c !in a
    ensures Split(a + [c] + b, c) == [a] + Split(b, c)
  {
    var s := a + [c] + b;
    if |a| == 0 {
      assert s[1..] == b;
    } else {
      assert s[1..] == a[1..] + [c] + b;
      SplitAfter(a[1..], c, b);
      assert a == [a[0]] + a[1..];
    }
  }
}
