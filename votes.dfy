/** Vote aggregation (`rate_overlaps`, main.cpp): alignments arrive grouped
    by read; every unordered pair of alignments inside one run of equal read
    ids is classified once, and each positive classification adds one vote
    to one of three tables keyed by an ordered contig pair. */
module Votes {
  import opened Wrappers
  import opened Overlaps

  /** The junction a vote supports: `joint_overlap::type` 0, 1 and 2. */
  datatype Adjacency = EndStart | EndEnd | StartStart

  /** One vote: `left`'s contig is joined to `right`'s at the ends `kind`
      names. */
  datatype Vote = Vote(kind: Adjacency, left: string, right: string)

  /** An ordered pair of contig ids. */
  type Key = (string, string)

  /** `votes_end_start`, `votes_end_end` and `votes_start_start`. */
  datatype Tables = Tables(endStart: map<Key, int>, endEnd: map<Key, int>, startStart: map<Key, int>)

  function Table(t: Tables, kind: Adjacency): map<Key, int>
  {
    match kind
    case EndStart => t.endStart
    case EndEnd => t.endEnd
    case StartStart => t.startStart
  }

  /** The classification of the pair (a, b), first match wins: end-to-start
      as given, end-to-start swapped, end-to-end, start-to-start. */
  function Classify(a: Overlap, b: Overlap): (c: Option<Vote>)
    ensures c.Some? && c.value.kind == EndStart ==>
              (OverlapsEndStart(a, b) && c.value == Vote(EndStart, a.contigId, b.contigId)) ||
              (!OverlapsEndStart(a, b) && OverlapsEndStart(b, a) && c.value == Vote(EndStart, b.contigId, a.contigId))
    ensures c.Some? && c.value.kind == EndEnd ==>
              OverlapsEndEnd(a, b) && !OverlapsEndStart(a, b) && !OverlapsEndStart(b, a) &&
              c.value == Vote(EndEnd, a.contigId, b.contigId)
    ensures c.Some? && c.value.kind == StartStart ==>
              OverlapsStartStart(a, b) && !OverlapsEndEnd(a, b) && !OverlapsEndStart(a, b) && !OverlapsEndStart(b, a) &&
              c.value == Vote(StartStart, a.contigId, b.contigId)
  {
    if OverlapsEndStart(a, b) then Some(Vote(EndStart, a.contigId, b.contigId))
    else if OverlapsEndStart(b, a) then Some(Vote(EndStart, b.contigId, a.contigId))
    else if OverlapsEndEnd(a, b) then Some(Vote(EndEnd, a.contigId, b.contigId))
    else if OverlapsStartStart(a, b) then Some(Vote(StartStart, a.contigId, b.contigId))
    else None
  }

  /** A pair votes exactly when some classifier accepts it, in one of its
      two orders for end-to-start; the vote joins the two (different)
      contigs of the pair, in the given order unless it is end-to-start. */
  lemma ClassifyVotes(a: Overlap, b: Overlap)
    ensures Classify(a, b) == None <==>
              !OverlapsEndStart(a, b) && !OverlapsEndStart(b, a) && !OverlapsEndEnd(a, b) && !OverlapsStartStart(a, b)
    ensures Classify(a, b).Some? ==>
              var v := Classify(a, b).value;
              v.left != v.right &&
              ((v.left, v.right) == (a.contigId, b.contigId) || (v.kind == EndStart && (v.left, v.right) == (b.contigId, a.contigId)))
  {
    ClassifierGuards(a, b);
    ClassifierGuards(b, a);
  }

  /** `votes[key] += 1` on a `std::map`: a missing key is first inserted
      with 0. */
  function Bumped(m: map<Key, int>, key: Key): (r: map<Key, int>)
    ensures r.Keys == m.Keys + {key}
    ensures key !in m ==> r[key] == 1
    ensures key in m ==> r[key] == m[key] + 1
    ensures forall k :: k in m && k != key ==> r[k] == m[k]
  {
    m[key := (if key in m then m[key] else 0) + 1]
  }

  /** The tables after one more vote. */
  function Record(t: Tables, v: Vote): Tables
  {
    var key := (v.left, v.right);
    match v.kind
    case EndStart => t.(endStart := Bumped(t.endStart, key))
    case EndEnd => t.(endEnd := Bumped(t.endEnd, key))
    case StartStart => t.(startStart := Bumped(t.startStart, key))
  }

  /** The tables after a classification: unchanged when the pair does not
      vote. */
  function Recorded(t: Tables, c: Option<Vote>): Tables
  {
    match c
    case Some(v) => Record(t, v)
    case None => t
  }

  /** The tables after the votes `vs`, in order, starting from empty tables. */
  function Tally(vs: seq<Vote>): Tables
  {
    if vs == [] then Tables(map[], map[], map[]) else Record(Tally(vs[..|vs| - 1]), vs[|vs| - 1])
  }

  /** How often `v` occurs in `vs`. */
  function Count(vs: seq<Vote>, v: Vote): nat
  {
    if vs == [] then 0 else Count(vs[..|vs| - 1], v) + (if vs[|vs| - 1] == v then 1 else 0)
  }

  /** A table holds a key exactly when some vote for it was cast, and then
      holds the number of those votes. */
  lemma {:induction false} TallyCounts(vs: seq<Vote>, v: Vote)
    ensures (v.left, v.right) in Table(Tally(vs), v.kind) <==> Count(vs, v) > 0
    ensures (v.left, v.right) in Table(Tally(vs), v.kind) ==> Table(Tally(vs), v.kind)[(v.left, v.right)] == Count(vs, v)
  {
    if vs != [] {
      TallyCounts(vs[..|vs| - 1], v);
    }
  }

  /** `s[j]` and `s[k]` lie in one run: every alignment from `s[j]` to
      `s[k]` carries `s[j]`'s read id, so none of them starts a new run. */
  predicate InOneRun(s: seq<Overlap>, j: int, k: int)
    requires 0 <= j <= k < |s|
    decreases k
  {
    k == j || (InOneRun(s, j, k - 1) && s[k].readId == s[j].readId)
  }

  lemma {:induction false} InOneRunAt(s: seq<Overlap>, j: int, k: int, t: int)
    requires 0 <= j <= t <= k < |s| && InOneRun(s, j, k)
    ensures s[t].readId == s[j].readId
    ensures InOneRun(s, j, t)
    decreases k
  {
    if t < k {
      InOneRunAt(s, j, k - 1, t);
    }
  }

  /** A run seen from a later start is still a run. */
  lemma {:induction false} InOneRunTail(s: seq<Overlap>, g: int, j: int, k: int)
    requires 0 <= g <= j <= k < |s| && InOneRun(s, g, k)
    ensures InOneRun(s, j, k)
    decreases k
  {
    if k > j {
      InOneRunTail(s, g, j, k - 1);
      InOneRunAt(s, g, k, j);
    }
  }

  /** A run extends by one alignment carrying the same read id as its last. */
  lemma InOneRunExtend(s: seq<Overlap>, j: int, k: int)
    requires 0 <= j <= k < |s| - 1 && InOneRun(s, j, k)
    requires s[k + 1].readId == s[k].readId
    ensures InOneRun(s, j, k + 1)
  {
    InOneRunAt(s, j, k, k);
  }

  /** Position `i` ends a run: the list ends there or the read id changes. */
  predicate RunEndsAt(s: seq<Overlap>, i: int)
    requires 0 < i <= |s|
  {
    i == |s| || s[i].readId != s[i - 1].readId
  }

  /** A way of classifying a pair of alignments. The grouping into runs and
      the counting below do not depend on what the classifier decides, so
      they are stated for any classifier and used with `Classify`. */
  type Classifier = (Overlap, Overlap) -> Option<Vote>

  /** The pair (j, k) casts `v`. */
  predicate Casts(s: seq<Overlap>, j: int, k: int, v: Vote, cl: Classifier)
  {
    0 <= j < k < |s| && InOneRun(s, j, k) && cl(s[j], s[k]) == Some(v)
  }

  /** The vote, if any, of the pair (j, k). */
  function PairVote(s: seq<Overlap>, j: int, k: int, cl: Classifier): seq<Vote>
    requires 0 <= j < k < |s|
  {
    if InOneRun(s, j, k) then
      match cl(s[j], s[k])
      case Some(v) => [v]
      case None => []
    else []
  }

  /** The votes of the pairs (j, k') with j < k' < k, in order of k'. */
  function RowVotes(s: seq<Overlap>, j: int, k: int, cl: Classifier): seq<Vote>
    requires 0 <= j < k <= |s|
    decreases k
  {
    if k == j + 1 then [] else RowVotes(s, j, k - 1, cl) + PairVote(s, j, k - 1, cl)
  }

  /** The votes of every pair whose first alignment is one of `s[..j]`. */
  function PrefixVotes(s: seq<Overlap>, j: int, cl: Classifier): seq<Vote>
    requires 0 <= j <= |s|
  {
    if j == 0 then [] else PrefixVotes(s, j - 1, cl) + RowVotes(s, j - 1, |s|, cl)
  }

  /** Every vote the alignment list casts, pair by pair in the order of
      `rate_overlaps`. */
  function PairVotes(s: seq<Overlap>): seq<Vote>
  {
    PrefixVotes(s, |s|, Classify)
  }

  lemma {:induction false} RowVotesMembers(s: seq<Overlap>, j: int, k: int, v: Vote, cl: Classifier)
    requires 0 <= j < k <= |s|
    ensures v in RowVotes(s, j, k, cl) <==> exists k' :: j < k' < k && Casts(s, j, k', v, cl)
    decreases k
  {
    if k > j + 1 {
      RowVotesMembers(s, j, k - 1, v, cl);
      if Casts(s, j, k - 1, v, cl) {
        assert v in PairVote(s, j, k - 1, cl);
      }
    }
  }

  lemma {:induction false} PrefixVotesMembers(s: seq<Overlap>, j: int, v: Vote, cl: Classifier)
    requires 0 <= j <= |s|
    ensures v in PrefixVotes(s, j, cl) <==> exists j', k :: 0 <= j' < j && Casts(s, j', k, v, cl)
  {
    if j > 0 {
      var r := j - 1;
      var earlier, row := PrefixVotes(s, r, cl), RowVotes(s, r, |s|, cl);
      assert PrefixVotes(s, j, cl) == earlier + row;
      PrefixVotesMembers(s, r, v, cl);
      RowVotesMembers(s, r, |s|, v, cl);
      if v in earlier + row {
        if v in earlier {
          var j', k :| 0 <= j' < r && Casts(s, j', k, v, cl);
          assert 0 <= j' < j;
        } else {
          var k :| r < k < |s| && Casts(s, r, k, v, cl);
          assert 0 <= r < j;
        }
      }
      if exists j', k :: 0 <= j' < j && Casts(s, j', k, v, cl) {
        var j', k :| 0 <= j' < j && Casts(s, j', k, v, cl);
        if j' < r {
          assert v in earlier;
        } else {
          assert r < k < |s|;
          assert v in row;
        }
      }
    }
  }

  /** The votes cast are exactly the classifications of pairs inside one run;
      pairs from different runs (even of an equal read id appearing again
      later) never vote. Each vote joins two different contigs that two
      alignments of one read touch. */
  lemma PairVotesMembers(s: seq<Overlap>, v: Vote)
    ensures v in PairVotes(s) <==> exists j, k :: Casts(s, j, k, v, Classify)
    ensures v in PairVotes(s) ==>
              v.left != v.right &&
              exists j, k :: 0 <= j < k < |s| && s[j].readId == s[k].readId &&
                             {v.left, v.right} == {s[j].contigId, s[k].contigId}
  {
    PrefixVotesMembers(s, |s|, v, Classify);
    if v in PairVotes(s) {
      var j, k :| Casts(s, j, k, v, Classify);
      CastVoteJoinsPair(s, j, k, v);
    }
  }

  lemma CastVoteJoinsPair(s: seq<Overlap>, j: int, k: int, v: Vote)
    requires Casts(s, j, k, v, Classify)
    ensures v.left != v.right && s[j].readId == s[k].readId
    ensures {v.left, v.right} == {s[j].contigId, s[k].contigId}
  {
    InOneRunAt(s, j, k, k);
  }

  lemma {:induction false} RowVotesBound(s: seq<Overlap>, j: int, k: int, cl: Classifier)
    requires 0 <= j < k <= |s|
    ensures |RowVotes(s, j, k, cl)| <= k - j - 1
    decreases k
  {
    if k > j + 1 {
      RowVotesBound(s, j, k - 1, cl);
    }
  }

  lemma {:induction false} PrefixVotesBound(s: seq<Overlap>, j: int, cl: Classifier)
    requires 0 <= j <= |s|
    ensures 2 * |PrefixVotes(s, j, cl)| <= j * (2 * |s| - j - 1)
  {
    if j > 0 {
      PrefixVotesBound(s, j - 1, cl);
      RowVotesBound(s, j - 1, |s|, cl);
      assert j * (2 * |s| - j - 1) == (j - 1) * (2 * |s| - (j - 1) - 1) + 2 * (|s| - j);
    }
  }

  /** At most one vote per unordered pair of alignments. */
  lemma PairVotesBound(s: seq<Overlap>)
    ensures 2 * |PairVotes(s)| <= |s| * (|s| - 1)
  {
    PrefixVotesBound(s, |s|, Classify);
  }

  /** Appending a pair's vote to the votes so far records its
      classification. */
  lemma TallyPair(vs: seq<Vote>, s: seq<Overlap>, j: int, k: int, cl: Classifier)
    requires 0 <= j < k < |s| && InOneRun(s, j, k)
    ensures Tally(vs + PairVote(s, j, k, cl)) == Recorded(Tally(vs), cl(s[j], s[k]))
  {
    if cl(s[j], s[k]).Some? {
      assert (vs + PairVote(s, j, k, cl))[..|vs|] == vs;
    } else {
      assert vs + PairVote(s, j, k, cl) == vs;
    }
  }

  /** The tables `t` after classifying, in order, the pairs (j, k') with
      j < k' < k that lie in one run. */
  function RowTally(s: seq<Overlap>, j: int, k: int, t: Tables, cl: Classifier): Tables
    requires 0 <= j < k <= |s|
    decreases k
  {
    if k == j + 1 then t
    else
      var before := RowTally(s, j, k - 1, t, cl);
      if InOneRun(s, j, k - 1) then Recorded(before, cl(s[j], s[k - 1])) else before
  }

  /** The tables after every pair whose first alignment is one of `s[..j]`,
      starting from empty tables. */
  function PrefixTally(s: seq<Overlap>, j: int, cl: Classifier): Tables
    requires 0 <= j <= |s|
  {
    if j == 0 then Tables(map[], map[], map[]) else RowTally(s, j - 1, |s|, PrefixTally(s, j - 1, cl), cl)
  }

  /** Folding the pairs into the tables is tallying their votes. */
  lemma {:induction false} RowTallyIsTally(s: seq<Overlap>, j: int, k: int, vs: seq<Vote>, cl: Classifier)
    requires 0 <= j < k <= |s|
    ensures RowTally(s, j, k, Tally(vs), cl) == Tally(vs + RowVotes(s, j, k, cl))
    decreases k
  {
    if k == j + 1 {
      assert vs + RowVotes(s, j, k, cl) == vs;
    } else {
      var r := k - 1;
      var done := vs + RowVotes(s, j, r, cl);
      assert vs + RowVotes(s, j, k, cl) == done + PairVote(s, j, r, cl);
      RowTallyIsTally(s, j, r, vs, cl);
      if InOneRun(s, j, r) {
        TallyPair(done, s, j, r, cl);
      } else {
        assert done + PairVote(s, j, r, cl) == done;
      }
    }
  }

  lemma {:induction false} PrefixTallyIsTally(s: seq<Overlap>, j: int, cl: Classifier)
    requires 0 <= j <= |s|
    ensures PrefixTally(s, j, cl) == Tally(PrefixVotes(s, j, cl))
  {
    if j > 0 {
      var r := j - 1;
      var vs := PrefixVotes(s, r, cl);
      assert PrefixVotes(s, j, cl) == vs + RowVotes(s, r, |s|, cl);
      PrefixTallyIsTally(s, r, cl);
      RowTallyIsTally(s, r, |s|, vs, cl);
    }
  }

  /** A row stops at the end of its run: later partners never vote. */
  lemma {:induction false} RowStopsAtRunEnd(s: seq<Overlap>, j: int, i: int, k: int, t: Tables, cl: Classifier)
    requires 0 <= j < i <= k <= |s|
    requires RunEndsAt(s, i)
    ensures RowTally(s, j, k, t, cl) == RowTally(s, j, i, t, cl)
    decreases k
  {
    if k > i {
      RowStopsAtRunEnd(s, j, i, k - 1, t, cl);
      if InOneRun(s, j, k - 1) {
        InOneRunAt(s, j, k - 1, i);
        InOneRunAt(s, j, k - 1, i - 1);
        assert false;
      }
    }
  }

  /** The body of the innermost loop of `rate_overlaps`: one classification
      of the pair (a, b) and at most one vote. */
  method RatePair(a: Overlap, b: Overlap, t: Tables) returns (t': Tables)
    ensures t' == Recorded(t, Classify(a, b))
  {
    t' := t;
    if OverlapsEndStart(a, b) {
      t' := t.(endStart := Bumped(t.endStart, (a.contigId, b.contigId)));
    } else if OverlapsEndStart(b, a) {
      t' := t.(endStart := Bumped(t.endStart, (b.contigId, a.contigId)));
    } else if OverlapsEndEnd(a, b) {
      t' := t.(endEnd := Bumped(t.endEnd, (a.contigId, b.contigId)));
    } else if OverlapsStartStart(a, b) {
      t' := t.(startStart := Bumped(t.startStart, (a.contigId, b.contigId)));
    }
  }

  /** The innermost loop of `rate_overlaps`: `s[j]` against each later
      alignment of its run, which ends at `i`. */
  method RateRow(s: seq<Overlap>, j: int, i: int, t: Tables) returns (t': Tables)
    requires 0 <= j < i <= |s| && RunEndsAt(s, i) && InOneRun(s, j, i - 1)
    requires t == PrefixTally(s, j, Classify)
    ensures t' == PrefixTally(s, j + 1, Classify)
  {
    t' := t;
    for k := j + 1 to i
      invariant t' == RowTally(s, j, k, t, Classify)
    {
      InOneRunAt(s, j, i - 1, k);
      t' := RatePair(s[j], s[k], t');
    }
    RowStopsAtRunEnd(s, j, i, |s|, t, Classify);
  }

  /** The two inner loops of `rate_overlaps` for the run `s[g..i]`: every
      pair (j, k) with g <= j < k < i is classified. */
  method RateRun(s: seq<Overlap>, g: int, i: int, t: Tables) returns (t': Tables)
    requires 0 <= g < i <= |s| && RunEndsAt(s, i) && InOneRun(s, g, i - 1)
    requires t == PrefixTally(s, g, Classify)
    ensures t' == PrefixTally(s, i, Classify)
  {
    t' := t;
    for j := g to i
      invariant t' == PrefixTally(s, j, Classify)
    {
      InOneRunTail(s, g, j, i - 1);
      t' := RateRow(s, j, i, t');
    }
  }

  /** `rate_overlaps`' counting loops over the three (initially empty)
      tables: `groupStart` is the start of the current run; at each run end
      every pair inside the run is classified and its vote recorded. */
  method CountVotes(s: seq<Overlap>) returns (t: Tables)
    ensures t == PrefixTally(s, |s|, Classify)
    ensures t == Tally(PairVotes(s))
  {
    t := Tables(map[], map[], map[]);
    var groupStart := 0;
    var i := 1;
    while i <= |s|
      invariant 0 <= groupStart < i <= |s| + 1
      invariant i == |s| + 1 ==> groupStart == |s|
      invariant i <= |s| ==> InOneRun(s, groupStart, i - 1)
      invariant t == PrefixTally(s, groupStart, Classify)
    {
      if i < |s| && s[i].readId == s[i - 1].readId {
        InOneRunExtend(s, groupStart, i - 1);
        i := i + 1;
        continue;
      }
      t := RateRun(s, groupStart, i, t);
      groupStart := i;
      i := i + 1;
    }
    PrefixTallyIsTally(s, |s|, Classify);
  }
}
