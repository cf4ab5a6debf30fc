/** Ranking of candidate joins (`joint_overlap`, `cmp` and the end of
    `rate_overlaps`, main.cpp): every table entry becomes a candidate, and
    candidates are sorted by vote count, most first, ties broken by the left
    and then the right contig id. */
module Ranking {
  import opened SeqUtil
  import opened Votes

  /** `std::string`'s `operator<`: lexicographic by character, a proper
      prefix first. */
  predicate StrLess(x: string, y: string)
  {
    if |x| == 0 then |y| > 0
    else if |y| == 0 then false
    else if x[0] != y[0] then x[0] < y[0]
    else StrLess(x[1..], y[1..])
  }

  lemma {:induction false} StrLessIrreflexive(x: string)
    ensures !StrLess(x, x)
  {
    if |x| > 0 {
      StrLessIrreflexive(x[1..]);
    }
  }

  lemma {:induction false} StrLessAsymmetric(x: string, y: string)
    ensures StrLess(x, y) ==> !StrLess(y, x)
  {
    if |x| > 0 && |y| > 0 && x[0] == y[0] {
      StrLessAsymmetric(x[1..], y[1..]);
    }
  }

  lemma {:induction false} StrLessTransitive(x: string, y: string, z: string)
    requires StrLess(x, y) && StrLess(y, z)
    ensures StrLess(x, z)
  {
    if |x| > 0 && |y| > 0 && |z| > 0 && x[0] == y[0] && y[0] == z[0] {
      StrLessTransitive(x[1..], y[1..], z[1..]);
    }
  }

  /** Any two different strings are ordered one way or the other. */
  lemma {:induction false} StrLessTotal(x: string, y: string)
    requires x != y
    ensures StrLess(x, y) || StrLess(y, x)
  {
    if |x| > 0 && |y| > 0 && x[0] == y[0] {
      assert x == [x[0]] + x[1..] && y == [y[0]] + y[1..];
      StrLessTotal(x[1..], y[1..]);
    }
  }

  /** Lexicographic order as usually defined: `x` is a proper prefix of
      `y`, or at the first position where they differ `x` has the smaller
      letter. */
  ghost predicate LexLess(x: string, y: string)
  {
    ProperPrefix(x, y) || exists i :: FirstDiffLess(x, y, i)
  }

  ghost predicate ProperPrefix(x: string, y: string)
  {
    |x| < |y| && x == y[..|x|]
  }

  /** `x` and `y` agree before position `i`, where `x` has the smaller letter. */
  ghost predicate FirstDiffLess(x: string, y: string, i: int)
  {
    0 <= i < |x| && i < |y| && x[..i] == y[..i] && x[i] < y[i]
  }

  /** Dropping a common first letter shifts the first difference by one. */
  lemma ShiftDiff(x: string, y: string, i: int)
    requires |x| > 0 && |y| > 0 && x[0] == y[0] && i > 0
    ensures FirstDiffLess(x, y, i) <==> FirstDiffLess(x[1..], y[1..], i - 1)
  {
    if 0 <= i - 1 < |x| - 1 && i - 1 < |y| - 1 {
      assert x[..i] == [x[0]] + x[1..][..i - 1];
      assert y[..i] == [y[0]] + y[1..][..i - 1];
    }
  }

  /** With a common first letter, the order is that of the rests. */
  lemma LexLessTail(x: string, y: string)
    requires |x| > 0 && |y| > 0 && x[0] == y[0]
    ensures LexLess(x, y) <==> LexLess(x[1..], y[1..])
  {
    var x', y' := x[1..], y[1..];
    assert x == [x[0]] + x' && y == [y[0]] + y';
    assert ProperPrefix(x, y) <==> ProperPrefix(x', y');
    if i :| FirstDiffLess(x, y, i) {
      assert i != 0;
      ShiftDiff(x, y, i);
      assert FirstDiffLess(x', y', i - 1);
    }
    if i :| FirstDiffLess(x', y', i) {
      ShiftDiff(x, y, i + 1);
      assert FirstDiffLess(x, y, i + 1);
    }
  }

  /** `StrLess` is lexicographic order. */
  lemma {:induction false} StrLessIsLexLess(x: string, y: string)
    ensures StrLess(x, y) <==> LexLess(x, y)
  {
    if |x| == 0 {
      assert |y| > 0 ==> ProperPrefix(x, y);
    } else if |y| == 0 {
    } else if x[0] != y[0] {
      if x[0] < y[0] {
        assert FirstDiffLess(x, y, 0);
      }
      if i :| FirstDiffLess(x, y, i) {
        if i > 0 {
          assert x[..i][0] == y[..i][0];
        }
      }
    } else {
      LexLessTail(x, y);
      StrLessIsLexLess(x[1..], y[1..]);
    }
  }

  /** A candidate join (`joint_overlap`): the contig pair, its vote count
      and the kind of junction. */
  datatype JointOverlap = JointOverlap(left: string, right: string, votes: int, kind: Adjacency)

  /** `cmp`: `x` ranks strictly before `y`. */
  predicate Cmp(x: JointOverlap, y: JointOverlap)
  {
    if x.votes != y.votes then x.votes > y.votes
    else if x.left != y.left then StrLess(x.left, y.left)
    else StrLess(x.right, y.right)
  }

  lemma CmpAsymmetric(x: JointOverlap, y: JointOverlap)
    ensures Cmp(x, y) ==> !Cmp(y, x)
  {
    StrLessAsymmetric(x.left, y.left);
    StrLessAsymmetric(x.right, y.right);
  }

  /** `cmp` orders any two candidates one way or the other unless they carry
      the same vote count and the same pair of ids. */
  lemma CmpTotal(x: JointOverlap, y: JointOverlap)
    ensures (x.votes, x.left, x.right) != (y.votes, y.left, y.right) <==> Cmp(x, y) || Cmp(y, x)
  {
    StrLessIrreflexive(x.right);
    if x.left != y.left {
      StrLessTotal(x.left, y.left);
    } else if x.right != y.right {
      StrLessTotal(x.right, y.right);
    }
  }

  lemma StrAtMostChain(a: string, b: string, c: string)
    requires a == b || StrLess(a, b)
    requires b == c || StrLess(b, c)
    ensures a == c || StrLess(a, c)
    ensures StrLess(a, b) || StrLess(b, c) ==> StrLess(a, c)
  {
    if StrLess(a, b) && StrLess(b, c) {
      StrLessTransitive(a, b, c);
    }
  }

  lemma NotLessIsAtMost(a: string, b: string)
    ensures !StrLess(b, a) ==> a == b || StrLess(a, b)
  {
    if a != b {
      StrLessTotal(a, b);
    }
  }

  /** "Does not rank after" is transitive. */
  lemma NotAfterTransitive(x: JointOverlap, y: JointOverlap, z: JointOverlap)
    requires !Cmp(y, x) && !Cmp(z, y)
    ensures !Cmp(z, x)
  {
    if x.votes == y.votes && y.votes == z.votes {
      NotLessIsAtMost(x.left, y.left);
      NotLessIsAtMost(y.left, z.left);
      StrAtMostChain(x.left, y.left, z.left);
      StrLessAsymmetric(x.left, z.left);
      if x.left == y.left && y.left == z.left {
        NotLessIsAtMost(x.right, y.right);
        NotLessIsAtMost(y.right, z.right);
        StrAtMostChain(x.right, y.right, z.right);
        StrLessAsymmetric(x.right, z.right);
        StrLessIrreflexive(x.right);
      }
    }
  }

  /** The neighbours `s[k - 1]` and `s[k]` are in ranking order. */
  predicate InOrderAt(s: seq<JointOverlap>, k: int)
    requires 0 < k < |s|
  {
    !Cmp(s[k], s[k - 1])
  }

  /** Every neighbour pair is in ranking order. */
  predicate Sorted(s: seq<JointOverlap>)
  {
    forall k :: 0 < k < |s| ==> InOrderAt(s, k)
  }

  /** Sorted lists are in ranking order throughout: no candidate ranks
      strictly before one listed earlier. */
  lemma {:induction false} SortedRanks(s: seq<JointOverlap>, i: int, j: int)
    requires Sorted(s) && 0 <= i < j < |s|
    ensures !Cmp(s[j], s[i])
    decreases j - i
  {
    if j > i + 1 {
      SortedRanks(s, i, j - 1);
      assert InOrderAt(s, j);
      NotAfterTransitive(s[i], s[j - 1], s[j]);
    } else {
      assert InOrderAt(s, j);
    }
  }

  /** The candidates of one table: one per key, carrying its count. */
  function TableCandidates(m: map<Key, int>, kind: Adjacency): set<JointOverlap>
  {
    set key | key in m :: JointOverlap(key.0, key.1, m[key], kind)
  }

  function Candidates(t: Tables): set<JointOverlap>
  {
    TableCandidates(t.endStart, EndStart) + TableCandidates(t.endEnd, EndEnd) + TableCandidates(t.startStart, StartStart)
  }

  /** On tallied votes, the candidates are exactly the (kind, pair)
      combinations that received votes, each carrying its number of votes. */
  lemma TalliedCandidates(vs: seq<Vote>, c: JointOverlap)
    ensures c in Candidates(Tally(vs)) <==>
              var n := Count(vs, Vote(c.kind, c.left, c.right)); n > 0 && c.votes == n
  {
    var t, v := Tally(vs), Vote(c.kind, c.left, c.right);
    TallyCounts(vs, v);
    var m := Table(t, c.kind);
    assert c in Candidates(t) <==> c in TableCandidates(m, c.kind);
    if (c.left, c.right) in m && c.votes == m[(c.left, c.right)] {
      assert c == JointOverlap((c.left, c.right).0, (c.left, c.right).1, m[(c.left, c.right)], c.kind);
    }
  }

  /** The candidate `rate_overlaps` makes of one table entry. */
  function CandidateOf(m: map<Key, int>, key: Key, kind: Adjacency): JointOverlap
    requires key in m
  {
    JointOverlap(key.0, key.1, m[key], kind)
  }

  /** `list'` is `list` followed by one candidate for each key of `done`. */
  predicate Appended(list: seq<JointOverlap>, list': seq<JointOverlap>, m: map<Key, int>, kind: Adjacency, done: set<Key>)
  {
    done <= m.Keys && |list'| == |list| + |done| && list'[..|list|] == list && Distinct(list') &&
    (forall i :: |list| <= i < |list'| ==>
       (list'[i].left, list'[i].right) in done && list'[i] == CandidateOf(m, (list'[i].left, list'[i].right), kind)) &&
    (forall key :: key in done ==> CandidateOf(m, key, kind) in list')
  }

  /** Appending the candidate of a key not yet visited keeps `Appended`. */
  lemma AppendStep(list: seq<JointOverlap>, list': seq<JointOverlap>, m: map<Key, int>, kind: Adjacency, done: set<Key>, key: Key)
    requires forall i :: 0 <= i < |list| ==> list[i].kind != kind
    requires Appended(list, list', m, kind, done) && key in m && key !in done
    ensures Appended(list, list' + [CandidateOf(m, key, kind)], m, kind, done + {key})
  {
    var c := CandidateOf(m, key, kind);
    var next := list' + [c];
    forall i | 0 <= i < |list'| ensures list'[i] != c {
      if i >= |list| {
        assert (list'[i].left, list'[i].right) in done;
      } else {
        assert list'[i] == list[i];
      }
    }
    forall i, j | 0 <= i < j < |next| ensures next[i] != next[j] {
      if j < |list'| {
        assert next[i] == list'[i] && next[j] == list'[j];
      }
    }
    assert next[..|list|] == list' [..|list|];
    forall k | k in done + {key} ensures CandidateOf(m, k, kind) in next {
      if k != key {
        assert CandidateOf(m, k, kind) in list';
      } else {
        assert next[|list'|] == c;
      }
    }
  }

  /** The loop over one table's entries in `rate_overlaps`: appends one
      candidate per key. */
  method AppendCandidates(list: seq<JointOverlap>, m: map<Key, int>, kind: Adjacency)
    returns (list': seq<JointOverlap>)
    requires Distinct(list) && forall i :: 0 <= i < |list| ==> list[i].kind != kind
    ensures Distinct(list') && |list'| == |list| + |m|
    ensures forall c :: c in list' <==> c in list || c in TableCandidates(m, kind)
  {
    list' := list;
    var rest := m.Keys;
    ghost var done: set<Key> := {};
    while rest != {}
      invariant rest !! done && rest + done == m.Keys
      invariant Appended(list, list', m, kind, done)
      decreases rest
    {
      var key :| key in rest;
      AppendStep(list, list', m, kind, done, key);
      list' := list' + [CandidateOf(m, key, kind)];
      done, rest := done + {key}, rest - {key};
    }
    AppendedMembers(list, list', m, kind);
  }

  /** Once every key is visited, the list holds exactly the old entries and
      the table's candidates. */
  lemma AppendedMembers(list: seq<JointOverlap>, list': seq<JointOverlap>, m: map<Key, int>, kind: Adjacency)
    requires Appended(list, list', m, kind, m.Keys)
    ensures |list'| == |list| + |m|
    ensures forall c :: c in list' <==> c in list || c in TableCandidates(m, kind)
  {
    forall c | c in list' ensures c in list || c in TableCandidates(m, kind) {
      var i :| 0 <= i < |list'| && list'[i] == c;
      if i < |list| {
        assert list'[..|list|][i] == c;
      } else {
        var key := (c.left, c.right);
        assert key in m && c == CandidateOf(m, key, kind);
      }
    }
    forall c | c in list ensures c in list' {
      var i :| 0 <= i < |list| && list[i] == c;
      assert list'[..|list|][i] == c;
    }
    forall c | c in TableCandidates(m, kind) ensures c in list' {
      var key :| key in m && c == JointOverlap(key.0, key.1, m[key], kind);
      assert c == CandidateOf(m, key, kind);
    }
  }

  /** `s` with the neighbours at `j - 1` and `j` exchanged. */
  function Swapped(s: seq<JointOverlap>, j: int): seq<JointOverlap>
    requires 0 < j < |s|
  {
    s[j := s[j - 1]][j - 1 := s[j]]
  }

  /** Insertion of `s[j]`, which started at `i`, is under way: `s[..i + 1]`
      is sorted except around `j`, and the neighbours across `j` are in
      order. */
  predicate SortedExcept(s: seq<JointOverlap>, i: int, j: int)
  {
    0 <= j <= i < |s| &&
    (forall k :: 0 < k <= i && k != j ==> InOrderAt(s, k)) &&
    (0 < j < i ==> !Cmp(s[j + 1], s[j - 1]))
  }

  lemma StartInsert(s: seq<JointOverlap>, i: int)
    requires 0 <= i < |s| && Sorted(s[..i])
    ensures SortedExcept(s, i, i)
  {
    forall k | 0 < k < i ensures InOrderAt(s, k) {
      assert InOrderAt(s[..i], k);
    }
  }

  /** Exchanging a pair out of order moves the insertion point down and
      keeps the elements. */
  lemma SwapDown(s: seq<JointOverlap>, i: int, j: int)
    requires SortedExcept(s, i, j) && 0 < j && Cmp(s[j], s[j - 1])
    ensures SortedExcept(Swapped(s, j), i, j - 1)
    ensures multiset(Swapped(s, j)) == multiset(s)
  {
    var s' := Swapped(s, j);
    CmpAsymmetric(s[j], s[j - 1]);
    forall k | 0 < k <= i && k != j - 1 ensures InOrderAt(s', k) {
      if k == j {
        assert s'[k] == s[j - 1] && s'[k - 1] == s[j];
      } else if k == j + 1 {
        assert s'[k] == s[k] && s'[k - 1] == s[j - 1];
      } else {
        assert InOrderAt(s, k);
        assert s'[k] == s[k] && s'[k - 1] == s[k - 1];
      }
    }
    if 0 < j - 1 {
      assert InOrderAt(s, j - 1);
      assert s'[j] == s[j - 1] && s'[j - 2] == s[j - 2];
    }
    SwapKeepsElements(s, j);
  }

  lemma SwapKeepsElements(s: seq<JointOverlap>, j: int)
    requires 0 < j < |s|
    ensures multiset(Swapped(s, j)) == multiset(s)
  {
    assert s == s[..j - 1] + [s[j - 1], s[j]] + s[j + 1..];
    assert Swapped(s, j) == s[..j - 1] + [s[j], s[j - 1]] + s[j + 1..];
  }

  lemma FinishInsert(s: seq<JointOverlap>, i: int, j: int)
    requires SortedExcept(s, i, j) && (j == 0 || !Cmp(s[j], s[j - 1]))
    ensures Sorted(s[..i + 1])
  {
    var sorted := s[..i + 1];
    forall k | 0 < k < i + 1 ensures InOrderAt(sorted, k) {
      if k != j {
        assert InOrderAt(s, k);
      }
    }
  }

  /** One step of insertion sort: moves `a[i]` down past every neighbour it
      ranks strictly before, so that `a[..i + 1]` is sorted. */
  method InsertLast(a: array<JointOverlap>, i: int)
    requires 0 <= i < a.Length && Sorted(a[..i])
    modifies a
    ensures Sorted(a[..i + 1])
    ensures multiset(a[..]) == old(multiset(a[..]))
  {
    StartInsert(a[..], i);
    var j := i;
    while j > 0 && Cmp(a[j], a[j - 1])
      invariant SortedExcept(a[..], i, j)
      invariant multiset(a[..]) == old(multiset(a[..]))
      decreases j
    {
      ghost var before := a[..];
      SwapDown(before, i, j);
      a[j], a[j - 1] := a[j - 1], a[j];
      assert a[..] == Swapped(before, j);
      j := j - 1;
    }
    FinishInsert(a[..], i, j);
  }

  /** `std::sort(joint_overlaps.begin(), joint_overlaps.end(), cmp)`, as an
      in-place insertion sort: the result is in ranking order and a
      permutation of the input. */
  method SortCandidates(a: array<JointOverlap>)
    modifies a
    ensures Sorted(a[..])
    ensures multiset(a[..]) == old(multiset(a[..]))
  {
    for i := 0 to a.Length
      invariant Sorted(a[..i])
      invariant multiset(a[..]) == old(multiset(a[..]))
    {
      InsertLast(a, i);
    }
    assert a[..a.Length] == a[..];
  }

  /** The end of `rate_overlaps`: one candidate per entry of each table, then
      sorted. Each candidate occurs once, and the list holds exactly the
      candidates of the tables. */
  method JointOverlaps(t: Tables) returns (ranked: seq<JointOverlap>)
    ensures Sorted(ranked) && Distinct(ranked)
    ensures forall c :: c in ranked <==> c in Candidates(t)
  {
    var list := AppendCandidates([], t.endStart, EndStart);
    assert forall i :: 0 <= i < |list| ==> list[i] in list;
    list := AppendCandidates(list, t.endEnd, EndEnd);
    assert forall i :: 0 <= i < |list| ==> list[i] in list;
    list := AppendCandidates(list, t.startStart, StartStart);
    var a := new JointOverlap[|list|](i requires 0 <= i < |list| => list[i]);
    assert a[..] == list;
    SortCandidates(a);
    ranked := a[..];
    DistinctPermutation(list, ranked);
    assert forall c :: c in ranked <==> c in multiset(list);
  }
}
