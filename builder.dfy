/** The greedy merge of `scaffold()` (main.cpp): the contig and scaffold
    registries, the set of active scaffolds, and one loop step per ranked
    candidate. */
module Builder {
  import opened SeqUtil
  import opened Contigs
  import opened Scaffolds
  import opened Votes
  import opened Ranking

  /** The side of `c` that faces right in its scaffold's reading direction
      is still free: its end when read forward, its start when reversed. */
  predicate RightFree(c: Contig)
    reads c`reversed, c`start, c`end
  {
    if c.reversed then c.start else c.end
  }

  /** The side of `c` that faces left is still free. */
  predicate LeftFree(c: Contig)
    reads c`reversed, c`start, c`end
  {
    if c.reversed then c.end else c.start
  }

  /** `c` is listed by `s`, and each of its sides still free faces outward:
      only the last contig can have a free right-facing side, and only the
      first a free left-facing one. */
  predicate Sits(c: Contig, s: Scaffold)
    reads c`reversed, c`start, c`end, s`contigs
  {
    c in s.contigs &&
    (RightFree(c) ==> c == s.contigs[|s.contigs| - 1]) &&
    (LeftFree(c) ==> c == s.contigs[0])
  }

  /** Which end flags a merge of kind `kind` uses up, for the candidate's
      left contig (`isLeft`) or right contig (`isRight`). */
  predicate UsesEnd(kind: Adjacency, isLeft: bool, isRight: bool)
  {
    match kind
    case EndStart => isLeft
    case EndEnd => isLeft || isRight
    case StartStart => false
  }

  /** Which start flags a merge of kind `kind` uses up. */
  predicate UsesStart(kind: Adjacency, isLeft: bool, isRight: bool)
  {
    match kind
    case EndStart => isRight
    case EndEnd => false
    case StartStart => isLeft || isRight
  }

  /** The orientations a merge of kind `kind` leaves the two contigs in, so
      that the joined sides face each other: end to start reads both forward,
      end to end reads the right one reversed, start to start the left one. */
  predicate Facing(kind: Adjacency, leftReversed: bool, rightReversed: bool)
  {
    match kind
    case EndStart => !leftReversed && !rightReversed
    case EndEnd => !leftReversed && rightReversed
    case StartStart => leftReversed && !rightReversed
  }

  /** Whether the sides a merge of kind `kind` joins are both still free. */
  predicate Open(kind: Adjacency, l: Contig, r: Contig)
    reads l`start, l`end, r`start, r`end
  {
    match kind
    case EndStart => l.end && r.start
    case EndEnd => l.end && r.end
    case StartStart => l.start && r.start
  }

  /** A scaffold's list after the flip of `scaffold()` that makes its
      candidate contig read forward: reversed exactly when that contig was. */
  function Aligned<T>(cs: seq<T>, turn: bool): seq<T>
  {
    if turn then Reversed(cs) else cs
  }

  /** The merged list of a merge of kind `kind` of two aligned lists: end to
      end turns the right list round first, start to start the left one. */
  function Joined<T>(kind: Adjacency, l: seq<T>, r: seq<T>): seq<T>
  {
    match kind
    case EndStart => l + r
    case EndEnd => l + Reversed(r)
    case StartStart => Reversed(l) + r
  }

  /** `r` immediately follows `l` in `cs`. */
  predicate Adjacent(cs: seq<Contig>, l: Contig, r: Contig)
  {
    exists i :: 0 < i < |cs| && cs[i - 1] == l && cs[i] == r
  }

  /** The names of a run of contig records. */
  function Names(records: seq<(string, string)>): set<string>
  {
    if records == [] then {} else Names(records[..|records| - 1]) + {records[|records| - 1].0}
  }

  lemma {:induction false} NamesListed(records: seq<(string, string)>, x: string)
    ensures x in Names(records) <==> exists i :: 0 <= i < |records| && records[i].0 == x
  {
    if records != [] {
      var n := |records|;
      NamesListed(records[..n - 1], x);
      if x in Names(records[..n - 1]) {
        var i :| 0 <= i < n - 1 && records[..n - 1][i].0 == x;
        assert records[i].0 == x;
      }
    }
  }

  /** With distinct names, the k-th name is not among the earlier ones. */
  lemma NameUnlisted(records: seq<(string, string)>, k: int)
    requires forall i, j :: 0 <= i < j < |records| ==> records[i].0 != records[j].0
    requires 0 <= k < |records|
    ensures records[k].0 !in Names(records[..k])
  {
    NamesListed(records[..k], records[k].0);
  }

  /** Taking one member out of a finite set lowers its size by one. */
  lemma RemoveMember<T>(s: set<T>, x: T)
    requires x in s
    ensures |s - {x}| == |s| - 1
  {
    assert s == (s - {x}) + {x};
  }

  /** What one pass of the loop of `scaffold()` did for candidate `o`:
      whether it merged, and the scaffolds of the candidate's left and
      right contigs. */
  datatype Outcome = Outcome(o: JointOverlap, merged: bool, kept: Scaffold, gone: Scaffold)

  class Scaffolder {
    /** The active scaffolds (`set<Scaffold*> scaffolds`). */
    var scaffolds: set<Scaffold>
    /** `id_to_contig`: every contig by its id. */
    var idToContig: map<string, Contig>
    /** `id_to_scaffold`: the scaffold each contig founded, by that id. */
    var idToScaffold: map<string, Scaffold>

    /** The registries agree on the ids, and every active scaffold is
        registered under its own id. */
    ghost predicate Registered()
      reads this
    {
      idToContig.Keys == idToScaffold.Keys &&
      (forall id :: id in idToContig ==> idToContig[id].id == id) &&
      (forall id :: id in idToScaffold ==> idToScaffold[id].id == id) &&
      (forall s :: s in scaffolds ==> s.id in idToScaffold && idToScaffold[s.id] == s)
    }

    /** `c` sits in the active scaffold its `scaffold_id` names. */
    ghost predicate Placed(c: Contig)
      reads this, c`scaffoldId, c`reversed, c`start, c`end, idToScaffold.Values`contigs
    {
      c.scaffoldId in idToScaffold && idToScaffold[c.scaffoldId] in scaffolds &&
      Sits(c, idToScaffold[c.scaffoldId])
    }

    /** The members of `s` are registered contigs, listed once, each naming `s`. */
    ghost predicate Settled(s: Scaffold)
      reads this, s`contigs, idToContig.Values`scaffoldId
    {
      Distinct(s.contigs) &&
      forall c :: c in s.contigs ==>
        c in idToContig.Values && c.id in idToContig && idToContig[c.id] == c && c.scaffoldId == s.id
    }

    /** The partition invariant: every contig sits in exactly one active
        scaffold, the one its `scaffold_id` names, with its free sides
        facing outward. */
    ghost predicate Valid()
      reads this, idToContig.Values, idToScaffold.Values
    {
      Registered() &&
      (forall id {:trigger Placed(idToContig[id])} :: id in idToContig ==> Placed(idToContig[id])) &&
      (forall s {:trigger Settled(s)} :: s in scaffolds ==> Settled(s))
    }

    /** The empty registry before any contig is read. */
    constructor ()
      ensures Valid() && scaffolds == {} && idToContig == map[] && idToScaffold == map[]
    {
      scaffolds, idToContig, idToScaffold := {}, map[], map[];
    }

    /** One record of `read_contigs`: a new contig, founding a new scaffold
        of its own, is registered under its name. */
    method AddContig(name: string, data: string)
      requires Valid() && name !in idToContig
      modifies this`scaffolds, this`idToContig, this`idToScaffold
      ensures Valid()
      ensures name in idToContig && fresh(idToContig[name]) && idToContig[name].data == data
      ensures idToContig.Keys == old(idToContig.Keys) + {name}
      ensures forall id :: id in old(idToContig) ==> idToContig[id] == old(idToContig[id])
      ensures !idToContig[name].reversed && idToContig[name].start && idToContig[name].end
      ensures forall id :: id in old(idToScaffold) ==> idToScaffold[id] == old(idToScaffold[id])
      ensures fresh(idToScaffold[name]) && idToScaffold[name].contigs == [idToContig[name]]
      ensures scaffolds == old(scaffolds) + {idToScaffold[name]} && idToScaffold[name] !in old(scaffolds)
      ensures |scaffolds| == old(|scaffolds|) + 1
    {
      var c := new Contig(name, data);
      var s := new Scaffold(c);
      Register(c, s);
    }

    /** The registry updates of `AddContig` for a new contig `c` and the new
        scaffold `s` it founds. */
    method Register(c: Contig, s: Scaffold)
      requires Valid() && c.id !in idToContig && c !in idToContig.Values && s !in scaffolds
      requires s.contigs == [c] && s.id == c.id && c.scaffoldId == c.id
      modifies this`scaffolds, this`idToContig, this`idToScaffold
      ensures Valid()
      ensures idToContig == old(idToContig)[c.id := c] && idToScaffold == old(idToScaffold)[c.id := s]
      ensures scaffolds == old(scaffolds) + {s}
    {
      scaffolds := scaffolds + {s};
      idToContig := idToContig[c.id := c];
      idToScaffold := idToScaffold[c.id := s];
      assert Placed(c);
      forall t {:trigger Settled(t)} | t in scaffolds ensures Settled(t) {
        if t != s {
          assert old(Settled(t));
          forall x | x in t.contigs ensures x in idToContig.Values && idToContig[x.id] == x {
            assert x.id in old(idToContig) && old(idToContig[x.id]) == x;
            assert x.id != c.id && idToContig[x.id] == x;
          }
        } else {
          assert idToContig[c.id] == c;
        }
      }
      forall id {:trigger Placed(idToContig[id])} | id in idToContig ensures Placed(idToContig[id]) {
        if id != c.id {
          assert old(Placed(idToContig[id]));
        }
      }
    }

    /** After the first `k` records: their names are registered on top of
        `names0`, each carries its record's data, and there are `k` more
        scaffolds than `count0`. */
    ghost predicate ReadUpTo(records: seq<(string, string)>, k: nat, names0: set<string>, count0: nat)
      requires k <= |records|
      reads this
    {
      idToContig.Keys == names0 + Names(records[..k]) &&
      (forall i :: 0 <= i < k ==> records[i].0 in idToContig && idToContig[records[i].0].data == records[i].1) &&
      |scaffolds| == count0 + k
    }

    /** One pass of the loop of `read_contigs`. */
    method ReadRecord(records: seq<(string, string)>, k: nat, ghost names0: set<string>, ghost count0: nat)
      requires Valid() && k < |records| && ReadUpTo(records, k, names0, count0)
      requires forall i, j :: 0 <= i < j < |records| ==> records[i].0 != records[j].0
      requires records[k].0 !in names0
      modifies this`scaffolds, this`idToContig, this`idToScaffold
      ensures Valid() && ReadUpTo(records, k + 1, names0, count0)
      ensures fresh(idToContig[records[k].0]) && fresh(idToScaffold[records[k].0])
      ensures !idToContig[records[k].0].reversed && idToContig[records[k].0].start && idToContig[records[k].0].end
      ensures forall id :: id in old(idToContig) ==> id in idToContig && idToContig[id] == old(idToContig[id])
      ensures forall id :: id in old(idToScaffold) ==> id in idToScaffold && idToScaffold[id] == old(idToScaffold[id])
      ensures scaffolds == old(scaffolds) + {idToScaffold[records[k].0]}
      ensures forall c :: c in idToContig.Values ==> c in old(idToContig.Values) || fresh(c)
      ensures forall t :: t in idToScaffold.Values ==> t in old(idToScaffold.Values) || fresh(t)
    {
      assert records[..k + 1][..k] == records[..k];
      NameUnlisted(records, k);
      AddContig(records[k].0, records[k].1);
    }

    /** The state part of `read_contigs`: each (name, data) record in file
        order is registered by `AddContig`. */
    method ReadContigs(records: seq<(string, string)>)
      requires Valid()
      requires forall i, j :: 0 <= i < j < |records| ==> records[i].0 != records[j].0
      requires forall i :: 0 <= i < |records| ==> records[i].0 !in idToContig
      modifies this`scaffolds, this`idToContig, this`idToScaffold
      ensures Valid()
      ensures idToContig.Keys == old(idToContig.Keys) + Names(records)
      ensures forall i :: 0 <= i < |records| ==> records[i].0 in idToContig && idToContig[records[i].0].data == records[i].1
      ensures |scaffolds| == old(|scaffolds|) + |records|
      ensures forall i :: 0 <= i < |records| ==>
                var c := idToContig[records[i].0];
                fresh(c) && !c.reversed && c.start && c.end && fresh(idToScaffold[records[i].0])
      ensures forall id :: id in old(idToContig) ==> idToContig[id] == old(idToContig[id])
      ensures forall id :: id in old(idToScaffold) ==> idToScaffold[id] == old(idToScaffold[id])
      ensures forall s :: s in scaffolds ==> s in old(scaffolds) || fresh(s)
      ensures old(scaffolds) <= scaffolds
      ensures forall c :: c in idToContig.Values ==> c in old(idToContig.Values) || fresh(c)
      ensures forall t :: t in idToScaffold.Values ==> t in old(idToScaffold.Values) || fresh(t)
    {
      ghost var names0, count0 := idToContig.Keys, |scaffolds|;
      for k := 0 to |records|
        invariant Valid() && ReadUpTo(records, k, names0, count0)
        invariant forall i :: 0 <= i < k ==>
                    var c := idToContig[records[i].0];
                    fresh(c) && !c.reversed && c.start && c.end && fresh(idToScaffold[records[i].0])
        invariant forall id :: id in old(idToContig) ==> idToContig[id] == old(idToContig[id])
        invariant forall id :: id in old(idToScaffold) ==> idToScaffold[id] == old(idToScaffold[id])
        invariant forall s :: s in scaffolds ==> s in old(scaffolds) || fresh(s)
        invariant old(scaffolds) <= scaffolds
        invariant forall c :: c in idToContig.Values ==> c in old(idToContig.Values) || fresh(c)
        invariant forall t :: t in idToScaffold.Values ==> t in old(idToScaffold.Values) || fresh(t)
      {
        ReadRecord(records, k, names0, count0);
      }
      assert records[..|records|] == records;
    }

    /** The active scaffold holding the contig named `id`. */
    ghost function ScaffoldOf(id: string): Scaffold
      requires Valid() && id in idToContig
      reads this, idToContig.Values, idToScaffold.Values
    {
      assert Placed(idToContig[id]);
      idToScaffold[idToContig[id].scaffoldId]
    }

    /** Every registered contig is listed by the active scaffold holding it,
        and a free side of it is an outer end of that scaffold. */
    lemma Covered(id: string)
      requires Valid() && id in idToContig
      ensures ScaffoldOf(id) in scaffolds && Sits(idToContig[id], ScaffoldOf(id))
    {
      assert Placed(idToContig[id]);
    }

    /** Two active scaffolds listing the same contig are the same scaffold. */
    lemma Partition(c: Contig, s: Scaffold, t: Scaffold)
      requires Valid() && s in scaffolds && t in scaffolds && c in s.contigs && c in t.contigs
      ensures s == t
    {
      assert Settled(s) && Settled(t);
    }

    /** No active scaffold other than its own lists a contig. */
    lemma Separate(c: Contig, s: Scaffold)
      requires Valid() && s in scaffolds && c in s.contigs
      ensures c.id in idToContig && idToContig[c.id] == c && c.scaffoldId == s.id
      ensures ScaffoldOf(c.id) == s
    {
      assert Settled(s);
    }

    /** Two different active scaffolds share no contig. */
    lemma Apart(s: Scaffold, t: Scaffold)
      requires Valid() && s in scaffolds && t in scaffolds && s != t
      ensures forall c :: c in s.contigs ==> c !in t.contigs
    {
      assert Settled(s) && Settled(t);
    }

    /** An active scaffold and its members are registered objects. */
    lemma Owned(s: Scaffold)
      requires Valid() && s in scaffolds
      ensures s in idToScaffold.Values && forall c :: c in s.contigs ==> c in idToContig.Values
    {
      assert Settled(s);
    }

    /** `Scaffold::reverse` on an active scaffold: its list is reversed and
        each member's orientation toggled; the partition is kept. */
    method Orient(s: Scaffold)
      requires Valid() && s in scaffolds
      modifies s`contigs, s.contigs`reversed
      ensures Valid()
      ensures s.contigs == Reversed(old(s.contigs))
      ensures forall c :: c in old(s.contigs) ==> c.reversed == !old(c.reversed)
    {
      ghost var before := s.contigs;
      assert old(Settled(s));
      s.Reverse();
      ReversedMembers(before);
      ReversedDistinct(before);
      assert Settled(s);
      forall t {:trigger Settled(t)} | t in scaffolds && t != s ensures Settled(t) {
        assert old(Settled(t));
      }
      forall id {:trigger Placed(idToContig[id])} | id in idToContig ensures Placed(idToContig[id]) {
        var c := idToContig[id];
        assert old(Placed(c));
        if c in before {
          assert old(c.scaffoldId) == s.id;
          assert RightFree(c) ==> c == before[0];
          assert LeftFree(c) ==> c == before[|before| - 1];
        } else {
          assert idToScaffold[c.scaffoldId] != s;
        }
      }
    }

    /** `merge` followed by `scaffolds.erase`: the right scaffold's list is
        appended to the left one, its contigs relabelled, and it leaves the
        active set. The facing sides at the seam must be used up. */
    method Join(l: Scaffold, r: Scaffold)
      requires Valid() && l in scaffolds && r in scaffolds && l != r
      requires l.contigs != [] && r.contigs != []
      requires !RightFree(l.contigs[|l.contigs| - 1]) && !LeftFree(r.contigs[0])
      modifies this`scaffolds, l`contigs, r.contigs`scaffoldId
      ensures Valid()
      ensures l.contigs == old(l.contigs) + old(r.contigs)
      ensures scaffolds == old(scaffolds) - {r}
    {
      ghost var left, right := l.contigs, r.contigs;
      assert old(Settled(l)) && old(Settled(r));
      forall c | c in left ensures c !in right {
        assert c.scaffoldId == l.id != r.id;
      }
      l.Merge(r);
      scaffolds := scaffolds - {r};
      DistinctConcat(left, right);
      assert Settled(l);
      forall t {:trigger Settled(t)} | t in scaffolds && t != l ensures Settled(t) {
        assert old(Settled(t));
        forall c | c in t.contigs ensures c !in right {
          assert old(c.scaffoldId) == t.id != r.id;
        }
      }
      forall id {:trigger Placed(idToContig[id])} | id in idToContig ensures Placed(idToContig[id]) {
        var c := idToContig[id];
        assert old(Placed(c));
        if c in right {
          assert old(c.scaffoldId) == r.id;
          assert RightFree(c) ==> c == right[|right| - 1];
          assert !LeftFree(c);
        } else if c in left {
          assert c.scaffoldId == l.id;
          assert !RightFree(c);
          assert LeftFree(c) ==> c == left[0];
        } else {
          assert old(c.scaffoldId) != r.id && old(c.scaffoldId) != l.id;
        }
      }
    }

    /** The flag test of `scaffold()` for candidate `o`, on the flags as they
        are (flips do not touch them). */
    ghost predicate Free(o: JointOverlap)
      requires o.left in idToContig && o.right in idToContig
      reads this, idToContig.Values
    {
      Open(o.kind, idToContig[o.left], idToContig[o.right])
    }

    /** The `set_end(false)` / `set_start(false)` calls of a merge of kind
        `kind`: the sides its junction uses are marked as taken. */
    method Release(kind: Adjacency, lc: Contig, rc: Contig)
      requires Valid() && lc in idToContig.Values && rc in idToContig.Values && lc != rc
      modifies lc`start, lc`end, rc`start, rc`end
      ensures Valid()
      ensures lc.end == (old(lc.end) && !UsesEnd(kind, true, false))
      ensures rc.end == (old(rc.end) && !UsesEnd(kind, false, true))
      ensures lc.start == (old(lc.start) && !UsesStart(kind, true, false))
      ensures rc.start == (old(rc.start) && !UsesStart(kind, false, true))
    {
      match kind {
        case EndStart =>
          lc.SetEnd(false);
          rc.SetStart(false);
        case EndEnd =>
          lc.SetEnd(false);
          rc.SetEnd(false);
        case StartStart =>
          lc.SetStart(false);
          rc.SetStart(false);
      }
      forall s {:trigger Settled(s)} | s in scaffolds ensures Settled(s) {
        assert old(Settled(s));
      }
      forall id {:trigger Placed(idToContig[id])} | id in idToContig ensures Placed(idToContig[id]) {
        assert old(Placed(idToContig[id]));
      }
    }

    /** The `set_end`/`set_start` calls and the `merge`/`erase` of a merge
        whose two contigs already face each other at the seam: `lc` ends
        `ls` and `rc` starts `rs`. For end to start this is the whole merge. */
    method Seam(kind: Adjacency, lc: Contig, rc: Contig, ls: Scaffold, rs: Scaffold)
      requires Valid() && ls in scaffolds && rs in scaffolds && ls != rs
      requires ls.contigs != [] && rs.contigs != []
      requires lc == ls.contigs[|ls.contigs| - 1] && rc == rs.contigs[0]
      requires Facing(kind, lc.reversed, rc.reversed)
      modifies this`scaffolds, ls`contigs, lc`start, lc`end, rc`start, rc`end, rs.contigs`scaffoldId
      ensures Valid()
      ensures ls.contigs == old(ls.contigs) + old(rs.contigs)
      ensures scaffolds == old(scaffolds) - {rs}
      ensures lc.end == (old(lc.end) && !UsesEnd(kind, true, false))
      ensures rc.end == (old(rc.end) && !UsesEnd(kind, false, true))
      ensures lc.start == (old(lc.start) && !UsesStart(kind, true, false))
      ensures rc.start == (old(rc.start) && !UsesStart(kind, false, true))
    {
      assert Settled(ls) && Settled(rs);
      assert lc != rc by {
        assert lc.scaffoldId == ls.id != rs.id == rc.scaffoldId;
      }
      Release(kind, lc, rc);
      Join(ls, rs);
    }

    /** An end-to-end merge of the last contig of `ls` with the last of `rs`,
        both read forward: uses up both ends, then turns `rs` round so that
        `rc` leads it, reversed, and appends. */
    method JoinEndEnd(lc: Contig, rc: Contig, ls: Scaffold, rs: Scaffold)
      requires Valid() && ls in scaffolds && rs in scaffolds && ls != rs
      requires ls.contigs != [] && rs.contigs != []
      requires lc == ls.contigs[|ls.contigs| - 1] && rc == rs.contigs[|rs.contigs| - 1]
      requires !lc.reversed && !rc.reversed
      modifies this`scaffolds, ls`contigs, rs`contigs, lc`start, lc`end, rc`start, rc`end
      modifies rs.contigs`reversed, rs.contigs`scaffoldId
      ensures Valid()
      ensures ls.contigs == old(ls.contigs) + Reversed(old(rs.contigs))
      ensures scaffolds == old(scaffolds) - {rs}
      ensures lc.end == (old(lc.end) && !UsesEnd(EndEnd, true, false))
      ensures rc.end == (old(rc.end) && !UsesEnd(EndEnd, false, true))
      ensures lc.start == (old(lc.start) && !UsesStart(EndEnd, true, false))
      ensures rc.start == (old(rc.start) && !UsesStart(EndEnd, false, true))
      ensures !lc.reversed && rc.reversed
      ensures forall d :: d in old(ls.contigs) ==> d.reversed == old(d.reversed)
      ensures forall d :: d in old(rs.contigs) ==> d.reversed == !old(d.reversed)
    {
      Apart(ls, rs);
      assert lc in ls.contigs;
      Orient(rs);
      assert rs.contigs[0] == rc;
      Seam(EndEnd, lc, rc, ls, rs);
    }

    /** A start-to-start merge of the first contig of `ls` with the first of
        `rs`, both read forward: uses up both starts, then turns `ls` round
        so that `lc` ends it, reversed, and appends. */
    method JoinStartStart(lc: Contig, rc: Contig, ls: Scaffold, rs: Scaffold)
      requires Valid() && ls in scaffolds && rs in scaffolds && ls != rs
      requires ls.contigs != [] && rs.contigs != []
      requires lc == ls.contigs[0] && rc == rs.contigs[0]
      requires !lc.reversed && !rc.reversed
      modifies this`scaffolds, ls`contigs, lc`start, lc`end, rc`start, rc`end
      modifies ls.contigs`reversed, rs.contigs`scaffoldId
      ensures Valid()
      ensures ls.contigs == Reversed(old(ls.contigs)) + old(rs.contigs)
      ensures scaffolds == old(scaffolds) - {rs}
      ensures lc.end == (old(lc.end) && !UsesEnd(StartStart, true, false))
      ensures rc.end == (old(rc.end) && !UsesEnd(StartStart, false, true))
      ensures lc.start == (old(lc.start) && !UsesStart(StartStart, true, false))
      ensures rc.start == (old(rc.start) && !UsesStart(StartStart, false, true))
      ensures lc.reversed && !rc.reversed
      ensures forall d :: d in old(ls.contigs) ==> d.reversed == !old(d.reversed)
      ensures forall d :: d in old(rs.contigs) ==> d.reversed == old(d.reversed)
    {
      Apart(rs, ls);
      assert rc in rs.contigs;
      Orient(ls);
      assert ls.contigs[|ls.contigs| - 1] == lc;
      Seam(StartStart, lc, rc, ls, rs);
    }

    /** The part of `scaffold()` after the flips: tests the flags `kind`
        needs and, when they are free, merges as that kind says. */
    method TryJoin(kind: Adjacency, lc: Contig, rc: Contig, ls: Scaffold, rs: Scaffold) returns (merged: bool)
      requires Valid() && ls in scaffolds && rs in scaffolds && ls != rs
      requires Sits(lc, ls) && Sits(rc, rs)
      requires !lc.reversed && !rc.reversed
      modifies this`scaffolds, ls`contigs, rs`contigs, lc`start, lc`end, rc`start, rc`end
      modifies ls.contigs`reversed, rs.contigs`reversed, rs.contigs`scaffoldId
      ensures Valid()
      ensures merged <==> match kind
                          case EndStart => old(lc.end && rc.start)
                          case EndEnd => old(lc.end && rc.end)
                          case StartStart => old(lc.start && rc.start)
      ensures merged ==> scaffolds == old(scaffolds) - {rs}
      ensures !merged ==> scaffolds == old(scaffolds)
      ensures lc.end == (old(lc.end) && !(merged && UsesEnd(kind, true, false)))
      ensures rc.end == (old(rc.end) && !(merged && UsesEnd(kind, false, true)))
      ensures lc.start == (old(lc.start) && !(merged && UsesStart(kind, true, false)))
      ensures rc.start == (old(rc.start) && !(merged && UsesStart(kind, false, true)))
      ensures merged ==> Adjacent(ls.contigs, lc, rc) && Facing(kind, lc.reversed, rc.reversed)
      ensures merged ==> multiset(ls.contigs) == old(multiset(ls.contigs) + multiset(rs.contigs))
      ensures merged ==> ls.contigs == Joined(kind, old(ls.contigs), old(rs.contigs))
      ensures !merged ==> ls.contigs == old(ls.contigs) && rs.contigs == old(rs.contigs)
      ensures forall d :: d in old(ls.contigs) ==> d.reversed == (old(d.reversed) != (merged && kind == StartStart))
      ensures forall d :: d in old(rs.contigs) ==> d.reversed == (old(d.reversed) != (merged && kind == EndEnd))
    {
      match kind {
        case EndStart =>
          if !lc.end || !rc.start {
            return false;
          }
        case EndEnd =>
          if !lc.end || !rc.end {
            return false;
          }
        case StartStart =>
          if !lc.start || !rc.start {
            return false;
          }
      }
      ghost var left, right := ls.contigs, rs.contigs;
      match kind {
        case EndStart =>
          Seam(EndStart, lc, rc, ls, rs);
        case EndEnd =>
          JoinEndEnd(lc, rc, ls, rs);
        case StartStart =>
          JoinStartStart(lc, rc, ls, rs);
      }
      assert ls.contigs[|left| - 1] == lc && ls.contigs[|left|] == rc;
      merged := true;
    }

    /** Turns scaffold `s` over when its contig `c` is read reversed, so that
        `c` reads forward afterwards. */
    method Align(c: Contig, s: Scaffold)
      requires Valid() && s in scaffolds && Sits(c, s)
      modifies s`contigs, s.contigs`reversed
      ensures Valid() && Sits(c, s) && !c.reversed
      ensures s.contigs == Aligned(old(s.contigs), old(c.reversed))
      ensures forall d :: d in old(s.contigs) ==> d.reversed == (old(d.reversed) != old(c.reversed))
    {
      Separate(c, s);
      if c.reversed {
        Orient(s);
        ReversedMembers(old(s.contigs));
        assert Placed(c);
      }
    }

    /** The two flips of one pass of the loop of `scaffold()`. */
    method AlignBoth(lc: Contig, rc: Contig, ls: Scaffold, rs: Scaffold)
      requires Valid() && ls in scaffolds && rs in scaffolds && ls != rs
      requires Sits(lc, ls) && Sits(rc, rs)
      modifies ls`contigs, rs`contigs, ls.contigs`reversed, rs.contigs`reversed
      ensures Valid() && Sits(lc, ls) && Sits(rc, rs) && !lc.reversed && !rc.reversed
      ensures ls.contigs == Aligned(old(ls.contigs), old(lc.reversed))
      ensures rs.contigs == Aligned(old(rs.contigs), old(rc.reversed))
      ensures forall d :: d in old(ls.contigs) ==> d.reversed == (old(d.reversed) != old(lc.reversed))
      ensures forall d :: d in old(rs.contigs) ==> d.reversed == (old(d.reversed) != old(rc.reversed))
      ensures lc.start == old(lc.start) && lc.end == old(lc.end)
      ensures rc.start == old(rc.start) && rc.end == old(rc.end)
    {
      Apart(ls, rs);
      Align(lc, ls);
      Align(rc, rs);
    }

    /** The flips and the merge of one pass of the loop of `scaffold()`:
        turns each scaffold so that its candidate contig reads forward, then
        tests the flags `kind` needs and merges when they are free. */
    method Attempt(kind: Adjacency, lc: Contig, rc: Contig, ls: Scaffold, rs: Scaffold) returns (merged: bool)
      requires Valid() && ls in scaffolds && rs in scaffolds && ls != rs
      requires Sits(lc, ls) && Sits(rc, rs)
      modifies this`scaffolds, ls`contigs, rs`contigs, lc`start, lc`end, rc`start, rc`end
      modifies ls.contigs`reversed, rs.contigs`reversed, rs.contigs`scaffoldId
      ensures Valid()
      ensures merged <==> match kind
                          case EndStart => old(lc.end && rc.start)
                          case EndEnd => old(lc.end && rc.end)
                          case StartStart => old(lc.start && rc.start)
      ensures merged ==> scaffolds == old(scaffolds) - {rs}
      ensures !merged ==> scaffolds == old(scaffolds)
      ensures lc.end == (old(lc.end) && !(merged && UsesEnd(kind, true, false)))
      ensures rc.end == (old(rc.end) && !(merged && UsesEnd(kind, false, true)))
      ensures lc.start == (old(lc.start) && !(merged && UsesStart(kind, true, false)))
      ensures rc.start == (old(rc.start) && !(merged && UsesStart(kind, false, true)))
      ensures merged ==> Adjacent(ls.contigs, lc, rc) && Facing(kind, lc.reversed, rc.reversed)
      ensures merged ==> multiset(ls.contigs) == old(multiset(ls.contigs) + multiset(rs.contigs))
      ensures merged ==> ls.contigs == Joined(kind, Aligned(old(ls.contigs), old(lc.reversed)), Aligned(old(rs.contigs), old(rc.reversed)))
      ensures !merged ==> ls.contigs == Aligned(old(ls.contigs), old(lc.reversed)) && rs.contigs == Aligned(old(rs.contigs), old(rc.reversed))
      ensures forall d :: d in old(ls.contigs) ==> d.reversed == (old(d.reversed) != (old(lc.reversed) != (merged && kind == StartStart)))
      ensures forall d :: d in old(rs.contigs) ==> d.reversed == (old(d.reversed) != (old(rc.reversed) != (merged && kind == EndEnd)))
    {
      ReversedMembers(ls.contigs);
      ReversedMembers(rs.contigs);
      AlignBoth(lc, rc, ls, rs);
      merged := TryJoin(kind, lc, rc, ls, rs);
    }

    /** One pass of the loop of `scaffold()` for a candidate `o` whose
        contigs `lc` and `rc` sit in the different active scaffolds `ls` and
        `rs`: `Attempt`, with the flags stated for every registered contig. */
    method Pass(o: JointOverlap, lc: Contig, rc: Contig, ls: Scaffold, rs: Scaffold) returns (merged: bool)
      requires Valid() && o.left in idToContig && o.right in idToContig
      requires lc == idToContig[o.left] && rc == idToContig[o.right]
      requires ls in scaffolds && rs in scaffolds && ls != rs && Sits(lc, ls) && Sits(rc, rs)
      modifies this`scaffolds, ls`contigs, rs`contigs, lc`start, lc`end, rc`start, rc`end
      modifies ls.contigs`reversed, rs.contigs`reversed, rs.contigs`scaffoldId
      ensures Valid()
      ensures merged <==> old(Free(o))
      ensures merged ==> scaffolds == old(scaffolds) - {rs}
      ensures !merged ==> scaffolds == old(scaffolds)
      ensures forall id :: id in idToContig ==>
                idToContig[id].end == (old(idToContig[id].end) && !(merged && UsesEnd(o.kind, id == o.left, id == o.right)))
      ensures forall id :: id in idToContig ==>
                idToContig[id].start == (old(idToContig[id].start) && !(merged && UsesStart(o.kind, id == o.left, id == o.right)))
      ensures merged ==> Adjacent(ls.contigs, lc, rc) && Facing(o.kind, lc.reversed, rc.reversed)
      ensures merged ==> multiset(ls.contigs) == old(multiset(ls.contigs) + multiset(rs.contigs))
      ensures merged ==> ls.contigs == Joined(o.kind, Aligned(old(ls.contigs), old(lc.reversed)), Aligned(old(rs.contigs), old(rc.reversed)))
      ensures !merged ==> ls.contigs == Aligned(old(ls.contigs), old(lc.reversed)) && rs.contigs == Aligned(old(rs.contigs), old(rc.reversed))
      ensures forall d :: d in old(ls.contigs) ==> d.reversed == (old(d.reversed) != (old(lc.reversed) != (merged && o.kind == StartStart)))
      ensures forall d :: d in old(rs.contigs) ==> d.reversed == (old(d.reversed) != (old(rc.reversed) != (merged && o.kind == EndEnd)))
    {
      assert lc.id == o.left && rc.id == o.right;
      merged := Attempt(o.kind, lc, rc, ls, rs);
      forall id | id in idToContig
        ensures idToContig[id].end == (old(idToContig[id].end) && !(merged && UsesEnd(o.kind, id == o.left, id == o.right)))
        ensures idToContig[id].start == (old(idToContig[id].start) && !(merged && UsesStart(o.kind, id == o.left, id == o.right)))
      {
        if id != o.left && id != o.right {
          var c := idToContig[id];
          assert c != lc && c != rc by {
            assert c.id == id;
          }
        }
      }
    }

    /** One pass of the loop of `scaffold()` for candidate `o`: skips a pair
        already in one scaffold, turns each scaffold so that its candidate
        contig reads forward, then tests the flags and merges. */
    method Step(o: JointOverlap) returns (merged: bool, ghost ls: Scaffold, ghost rs: Scaffold)
      requires Valid() && o.left in idToContig && o.right in idToContig
      modifies this`scaffolds, idToScaffold.Values, idToContig.Values
      ensures Valid()
      ensures idToContig == old(idToContig)
      ensures ls == old(ScaffoldOf(o.left)) && rs == old(ScaffoldOf(o.right))
      ensures merged <==> ls != rs && old(Free(o))
      ensures merged ==> scaffolds == old(scaffolds) - {rs}
      ensures !merged ==> scaffolds == old(scaffolds)
      ensures forall id :: id in idToContig ==>
                idToContig[id].end == (old(idToContig[id].end) && !(merged && UsesEnd(o.kind, id == o.left, id == o.right)))
      ensures forall id :: id in idToContig ==>
                idToContig[id].start == (old(idToContig[id].start) && !(merged && UsesStart(o.kind, id == o.left, id == o.right)))
      ensures merged ==> Adjacent(ls.contigs, idToContig[o.left], idToContig[o.right])
      ensures merged ==> Facing(o.kind, idToContig[o.left].reversed, idToContig[o.right].reversed)
      ensures merged ==> multiset(ls.contigs) == old(multiset(ls.contigs) + multiset(rs.contigs))
      ensures merged ==>
                ls.contigs == Joined(o.kind, Aligned(old(ls.contigs), old(idToContig[o.left].reversed)),
                                     Aligned(old(rs.contigs), old(idToContig[o.right].reversed)))
      ensures !merged && ls != rs ==>
                ls.contigs == Aligned(old(ls.contigs), old(idToContig[o.left].reversed)) &&
                rs.contigs == Aligned(old(rs.contigs), old(idToContig[o.right].reversed))
      ensures ls != rs ==>
                forall d :: d in old(ls.contigs) ==>
                  d.reversed == (old(d.reversed) != (old(idToContig[o.left].reversed) != (merged && o.kind == StartStart)))
      ensures ls != rs ==>
                forall d :: d in old(rs.contigs) ==>
                  d.reversed == (old(d.reversed) != (old(idToContig[o.right].reversed) != (merged && o.kind == EndEnd)))
      ensures forall t :: t in old(scaffolds) && t != ls && t != rs ==>
                t.contigs == old(t.contigs) && forall d :: d in t.contigs ==> d.reversed == old(d.reversed)
      ensures ls == rs ==> !merged && unchanged(idToContig.Values) && unchanged(idToScaffold.Values) && ls.contigs == old(ls.contigs)
    {
      var leftContig, rightContig := idToContig[o.left], idToContig[o.right];
      assert Placed(leftContig) && Placed(rightContig);
      var leftScaffold := idToScaffold[leftContig.scaffoldId];
      var rightScaffold := idToScaffold[rightContig.scaffoldId];
      ls, rs := leftScaffold, rightScaffold;
      if leftScaffold == rightScaffold {
        return false, ls, rs;
      }
      Owned(leftScaffold);
      Owned(rightScaffold);
      forall t | t in scaffolds && t != leftScaffold && t != rightScaffold
        ensures forall d :: d in t.contigs ==> d !in leftScaffold.contigs && d !in rightScaffold.contigs
      {
        Apart(t, leftScaffold);
        Apart(t, rightScaffold);
      }
      merged := Pass(o, leftContig, rightContig, leftScaffold, rightScaffold);
    }

    /** The loop of `scaffold()`: candidates are tried in rank order until
        they run out or, right after a merge, one scaffold is left. `used`
        is the number of candidates tried. */
    method Build(ranked: seq<JointOverlap>) returns (used: nat, ghost merges: nat)
      requires Valid()
      requires forall i :: 0 <= i < |ranked| ==> ranked[i].left in idToContig && ranked[i].right in idToContig
      modifies this`scaffolds, idToScaffold.Values, idToContig.Values
      ensures Valid()
      ensures used <= |ranked| && (used < |ranked| ==> |scaffolds| == 1)
      ensures scaffolds <= old(scaffolds)
      ensures merges <= used && |scaffolds| + merges == old(|scaffolds|)
      ensures forall id :: id in idToContig ==>
                (idToContig[id].end ==> old(idToContig[id].end)) && (idToContig[id].start ==> old(idToContig[id].start))
      ensures SpentUpTo(ranked, |ranked|)
    {
      used, merges := 0, 0;
      while used < |ranked|
        invariant Valid() && used <= |ranked|
        invariant scaffolds <= old(scaffolds)
        invariant merges <= used && |scaffolds| + merges == old(|scaffolds|)
        invariant forall id :: id in idToContig ==>
                    (idToContig[id].end ==> old(idToContig[id].end)) && (idToContig[id].start ==> old(idToContig[id].start))
        invariant SpentUpTo(ranked, used)
      {
        ghost var before := scaffolds;
        var merged;
        ghost var gone;
        merged, gone := Advance(ranked, used);
        if merged {
          RemoveMember(before, gone);
          merges := merges + 1;
        }
        used := used + 1;
        if merged && |scaffolds| == 1 {
          break;
        }
      }
      if used < |ranked| {
        OneLeftSpent(ranked, used);
      }
    }

    /** `a` and `b` are listed by one active scaffold. */
    ghost predicate Together(a: Contig, b: Contig)
      reads this, scaffolds
    {
      exists s :: s in scaffolds && a in s.contigs && b in s.contigs
    }

    /** Candidate `o` can no longer merge: its contigs already share a
        scaffold, or a side it would join is taken. */
    ghost predicate Spent(o: JointOverlap)
      requires o.left in idToContig && o.right in idToContig
      reads this, scaffolds, idToContig.Values
    {
      Together(idToContig[o.left], idToContig[o.right]) || !Free(o)
    }

    /** No candidate among the first `k` of `ranked` can merge any more. */
    ghost predicate SpentUpTo(ranked: seq<JointOverlap>, k: nat)
      requires k <= |ranked|
      reads this, scaffolds, idToContig.Values
    {
      forall i :: 0 <= i < k ==> ranked[i].left in idToContig && ranked[i].right in idToContig && Spent(ranked[i])
    }

    /** Adding one more spent candidate. */
    lemma SpentNext(ranked: seq<JointOverlap>, k: nat)
      requires k < |ranked| && SpentUpTo(ranked, k)
      requires ranked[k].left in idToContig && ranked[k].right in idToContig && Spent(ranked[k])
      ensures SpentUpTo(ranked, k + 1)
    {
    }

    /** With a single active scaffold left, every pair of registered
        contigs is in it. */
    lemma OneLeft(o: JointOverlap)
      requires Valid() && |scaffolds| == 1 && o.left in idToContig && o.right in idToContig
      ensures Together(idToContig[o.left], idToContig[o.right])
    {
      Covered(o.left);
      Covered(o.right);
      var s, t := ScaffoldOf(o.left), ScaffoldOf(o.right);
      RemoveMember(scaffolds, s);
      assert t !in scaffolds - {s} ==> s == t;
    }

    /** With a single active scaffold left, the candidates not yet tried
        are spent as well. */
    lemma OneLeftSpent(ranked: seq<JointOverlap>, k: nat)
      requires Valid() && |scaffolds| == 1 && k <= |ranked| && SpentUpTo(ranked, k)
      requires forall i :: 0 <= i < |ranked| ==> ranked[i].left in idToContig && ranked[i].right in idToContig
      ensures SpentUpTo(ranked, |ranked|)
    {
      forall i | k <= i < |ranked| ensures Spent(ranked[i]) {
        OneLeft(ranked[i]);
      }
    }

    /** Two adjacent contigs are both listed. */
    lemma AdjacentMembers(cs: seq<Contig>, l: Contig, r: Contig)
      requires Adjacent(cs, l, r)
      ensures l in cs && r in cs
    {
      var i :| 0 < i < |cs| && cs[i - 1] == l && cs[i] == r;
    }

    /** Flipping a list keeps its members. */
    lemma AlignedMembers<T>(cs: seq<T>, turn: bool)
      ensures forall x :: x in Aligned(cs, turn) <==> x in cs
    {
      ReversedMembers(cs);
    }

    /** A list holding two lists' elements, counted, holds each member of
        either. */
    lemma PooledMembers<T>(l: seq<T>, r: seq<T>, m: seq<T>)
      requires multiset(m) == multiset(l) + multiset(r)
      ensures forall x :: x in l || x in r ==> x in m
    {
      forall x | x in l || x in r ensures x in m {
        assert x in multiset(l) || x in multiset(r);
        assert x in multiset(m);
      }
    }

    /** The active scaffold that holds the old members of `t` after a pass
        that merged `gone` into `kept`, or merged nothing. */
    static function Heir(t: Scaffold, merged: bool, kept: Scaffold, gone: Scaffold): Scaffold
    {
      if merged && t == gone then kept else t
    }

    /** From `Step`'s list facts: every old active scaffold's members stay
        listed together by that scaffold's heir, which is active. */
    twostate lemma Heirs(r: Outcome)
      requires r.o.left in old(idToContig) && r.o.right in old(idToContig)
      requires r.kept in old(scaffolds) && r.gone in old(scaffolds)
      requires r.merged ==> r.kept != r.gone && scaffolds == old(scaffolds) - {r.gone}
      requires !r.merged ==> scaffolds == old(scaffolds)
      requires r.merged ==> multiset(r.kept.contigs) == old(multiset(r.kept.contigs) + multiset(r.gone.contigs))
      requires !r.merged && r.kept != r.gone ==>
                 r.kept.contigs == Aligned(old(r.kept.contigs), old(idToContig[r.o.left].reversed)) &&
                 r.gone.contigs == Aligned(old(r.gone.contigs), old(idToContig[r.o.right].reversed))
      requires forall t :: t in old(scaffolds) && t != r.kept && t != r.gone ==> t.contigs == old(t.contigs)
      requires r.kept == r.gone ==> r.kept.contigs == old(r.kept.contigs)
      ensures forall t :: t in old(scaffolds) ==> Heir(t, r.merged, r.kept, r.gone) in scaffolds
      ensures forall t :: t in old(scaffolds) ==>
                forall x :: x in old(t.contigs) ==> x in Heir(t, r.merged, r.kept, r.gone).contigs
    {
      if r.merged {
        PooledMembers(old(r.kept.contigs), old(r.gone.contigs), r.kept.contigs);
      } else if r.kept != r.gone {
        AlignedMembers(old(r.kept.contigs), old(idToContig[r.o.left].reversed));
        AlignedMembers(old(r.gone.contigs), old(idToContig[r.o.right].reversed));
      }
    }

    /** From `Step`'s facts: the candidate a pass has just tried can no
        longer merge. */
    twostate lemma Landed(r: Outcome)
      requires r.o.left in idToContig && r.o.right in idToContig && idToContig == old(idToContig)
      requires r.kept in old(scaffolds) && r.gone in old(scaffolds)
      requires old(idToContig[r.o.left] in r.kept.contigs)
      requires r.merged <==> r.kept != r.gone && old(Free(r.o))
      requires r.merged ==> scaffolds == old(scaffolds) - {r.gone}
      requires !r.merged ==> scaffolds == old(scaffolds)
      requires r.merged ==> Adjacent(r.kept.contigs, idToContig[r.o.left], idToContig[r.o.right])
      requires r.kept == r.gone ==> r.kept.contigs == old(r.kept.contigs) && old(idToContig[r.o.right] in r.kept.contigs)
      requires forall id :: id in idToContig ==>
                 (idToContig[id].end ==> old(idToContig[id].end)) && (idToContig[id].start ==> old(idToContig[id].start))
      ensures Spent(r.o)
    {
      var l, c := idToContig[r.o.left], idToContig[r.o.right];
      if r.kept == r.gone {
        assert r.kept in scaffolds && l in r.kept.contigs && c in r.kept.contigs;
      } else if r.merged {
        AdjacentMembers(r.kept.contigs, l, c);
        assert r.kept in scaffolds;
      } else {
        assert !old(Free(r.o));
      }
    }

    /** A candidate unable to merge before a pass stays so after it. */
    twostate lemma Inherited(o: JointOverlap, new r: Outcome)
      requires o.left in idToContig && o.right in idToContig && idToContig == old(idToContig)
      requires old(Spent(o))
      requires forall t :: t in old(scaffolds) ==> Heir(t, r.merged, r.kept, r.gone) in scaffolds
      requires forall t :: t in old(scaffolds) ==>
                 forall x :: x in old(t.contigs) ==> x in Heir(t, r.merged, r.kept, r.gone).contigs
      requires forall id :: id in idToContig ==>
                 (idToContig[id].end ==> old(idToContig[id].end)) && (idToContig[id].start ==> old(idToContig[id].start))
      ensures Spent(o)
    {
      var l, c := idToContig[o.left], idToContig[o.right];
      if old(Together(l, c)) {
        var t :| t in old(scaffolds) && l in old(t.contigs) && c in old(t.contigs);
        var u := Heir(t, r.merged, r.kept, r.gone);
        assert u in scaffolds && l in u.contigs && c in u.contigs;
      } else {
        assert !old(Free(o));
      }
    }

    /** One pass of the loop of `Build` over `ranked[n]`, keeping every
        candidate tried so far unable to merge. */
    method Advance(ranked: seq<JointOverlap>, n: nat) returns (merged: bool, ghost gone: Scaffold)
      requires Valid() && n < |ranked|
      requires forall i :: 0 <= i < |ranked| ==> ranked[i].left in idToContig && ranked[i].right in idToContig
      requires SpentUpTo(ranked, n)
      modifies this`scaffolds, idToScaffold.Values, idToContig.Values
      ensures Valid()
      ensures merged ==> gone in old(scaffolds) && scaffolds == old(scaffolds) - {gone}
      ensures !merged ==> scaffolds == old(scaffolds)
      ensures forall id :: id in idToContig ==>
                (idToContig[id].end ==> old(idToContig[id].end)) && (idToContig[id].start ==> old(idToContig[id].start))
      ensures SpentUpTo(ranked, n + 1)
    {
      var o := ranked[n];
      Covered(o.left);
      Covered(o.right);
      ghost var kept;
      merged, kept, gone := Step(o);
      ghost var pass := Outcome(o, merged, kept, gone);
      Heirs(pass);
      Landed(pass);
      forall i | 0 <= i < n ensures Spent(ranked[i]) {
        Inherited(ranked[i], pass);
      }
      SpentNext(ranked, n);
    }
  }
}
