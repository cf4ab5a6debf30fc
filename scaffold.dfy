/** A scaffold: an ordered chain of shared contig references, read left to
    right; its id is that of the contig it was founded with (scaffold.h,
    scaffold.cpp). */
module Scaffolds {
  import opened SeqUtil
  import opened Contigs

  /** What one contig contributes to a scaffold's sequence: its data and
      whether it is read as the reverse complement. */
  datatype Oriented = Oriented(data: string, reversed: bool)

  /** The letters an oriented contig contributes. */
  function Spelled(p: Oriented): string
  {
    if p.reversed then ReverseComplement(p.data) else p.data
  }

  /** Concatenation, in list order, of what each contig contributes. */
  function Assemble(ps: seq<Oriented>): string
  {
    if ps == [] then [] else Assemble(ps[..|ps| - 1]) + Spelled(ps[|ps| - 1])
  }

  /** The same contig read in the other direction. */
  function Toggle(p: Oriented): Oriented
  {
    Oriented(p.data, !p.reversed)
  }

  /** The same chain read from the other side: order reversed and every
      orientation toggled. */
  function Flip(ps: seq<Oriented>): (r: seq<Oriented>)
    ensures |r| == |ps|
    ensures forall i :: 0 <= i < |ps| ==> r[i] == Toggle(ps[|ps| - 1 - i])
  {
    if ps == [] then [] else [Toggle(ps[|ps| - 1])] + Flip(ps[..|ps| - 1])
  }

  /** The orientation state of a list of contigs in the current heap. */
  function Layout(cs: seq<Contig>): (ps: seq<Oriented>)
    reads cs
    ensures |ps| == |cs|
    ensures forall i :: 0 <= i < |cs| ==> ps[i] == Oriented(cs[i].data, cs[i].reversed)
  {
    if cs == [] then [] else Layout(cs[..|cs| - 1]) + [Oriented(cs[|cs| - 1].data, cs[|cs| - 1].reversed)]
  }

  /** Every contig of the chain carries nucleotide data. */
  predicate AllDna(ps: seq<Oriented>)
  {
    forall i :: 0 <= i < |ps| ==> IsDna(ps[i].data)
  }

  lemma FlipTwice(ps: seq<Oriented>)
    ensures Flip(Flip(ps)) == ps
  {
    var f := Flip(ps);
    forall i | 0 <= i < |ps| ensures Flip(f)[i] == ps[i] {
      assert f[|ps| - 1 - i] == Toggle(ps[i]);
    }
  }

  lemma {:induction false} AssembleAppend(a: seq<Oriented>, b: seq<Oriented>)
    ensures Assemble(a + b) == Assemble(a) + Assemble(b)
  {
    if b != [] {
      var b' := b[..|b| - 1];
      assert (a + b)[..|a + b| - 1] == a + b';
      AssembleAppend(a, b');
    } else {
      assert a + b == a;
    }
  }

  /** Reading a scaffold from the other side spells the reverse complement of
      reading it forward, provided all data are nucleotide strings. */
  lemma {:induction false} AssembleFlip(ps: seq<Oriented>)
    requires AllDna(ps)
    ensures Assemble(Flip(ps)) == ReverseComplement(Assemble(ps))
  {
    if ps == [] {
      assert Complemented([]) == [];
    } else {
      var n := |ps|;
      var init, last := ps[..n - 1], ps[n - 1];
      var flipped := Toggle(last);
      assert AllDna(init);
      assert Flip(ps) == [flipped] + Flip(init);
      AssembleAppend([flipped], Flip(init));
      assert Assemble([flipped]) == Spelled(flipped) by {
        assert [flipped][..0] == [];
      }
      AssembleFlip(init);
      assert Spelled(flipped) == ReverseComplement(Spelled(last)) by {
        if last.reversed {
          ReverseComplementTwice(last.data);
        }
      }
      ReverseComplementAppend(Assemble(init), Spelled(last));
    }
  }

  /** Whether `x` is listed an odd number of times in `s`: entries toggled
      one by one leave exactly such contigs toggled. */
  function Flipped<T(==)>(s: seq<T>, x: T): bool
  {
    if s == [] then false else Flipped(s[..|s| - 1], x) != (s[|s| - 1] == x)
  }

  /** In a list without duplicates, exactly the members are listed an odd
      number of times. */
  lemma {:induction false} DistinctFlipped<T>(s: seq<T>, x: T)
    requires Distinct(s)
    ensures Flipped(s, x) == (x in s)
  {
    if s != [] {
      var n := |s|;
      assert Distinct(s[..n - 1]);
      DistinctFlipped(s[..n - 1], x);
      assert x in s <==> x in s[..n - 1] || x == s[n - 1] by {
        assert s == s[..n - 1] + [s[n - 1]];
      }
      if x == s[n - 1] {
        assert x !in s[..n - 1];
      }
    }
  }

  lemma DistinctAllFlipped<T>(s: seq<T>)
    requires Distinct(s)
    ensures forall x :: x in s ==> Flipped(s, x)
  {
    forall x | x in s ensures Flipped(s, x) {
      DistinctFlipped(s, x);
    }
  }

  /** Being listed an odd number of times is a matter of the count alone. */
  lemma {:induction false} FlippedParity<T>(s: seq<T>, x: T)
    ensures Flipped(s, x) == (multiset(s)[x] % 2 == 1)
  {
    if s != [] {
      var n := |s|;
      assert s == s[..n - 1] + [s[n - 1]];
      FlippedParity(s[..n - 1], x);
    }
  }

  /** Two calls of `Scaffold::reverse` restore the list and, since a
      contig's flag is toggled once per listing in each call, every flag. */
  lemma ReverseTwiceRestores<T>(s: seq<T>, x: T)
    ensures Reversed(Reversed(s)) == s
    ensures Flipped(Reversed(s), x) == Flipped(s, x)
  {
    ReversedTwice(s);
    FlippedParity(s, x);
    FlippedParity(Reversed(s), x);
  }

  /** The loop of `Scaffold::reverse` over the (already reversed) list:
      toggles the orientation of each entry in turn. */
  method ToggleAll(cs: seq<Contig>)
    modifies cs`reversed
    ensures forall c :: c in cs ==> c.reversed == (old(c.reversed) != Flipped(cs, c))
    ensures Distinct(cs) ==> forall c :: c in cs ==> c.reversed == !old(c.reversed)
  {
    for i := 0 to |cs|
      invariant forall c :: c in cs ==> c.reversed == (old(c.reversed) != Flipped(cs[..i], c))
    {
      assert cs[..i + 1][..i] == cs[..i];
      cs[i].Reverse();
    }
    assert cs[..|cs|] == cs;
    if Distinct(cs) {
      DistinctAllFlipped(cs);
    }
  }

  /** A layout whose i-th entry is the toggled (n-1-i)-th entry of `before`
      is the flipped layout. */
  lemma FlippedLayout(before: seq<Oriented>, after: seq<Oriented>)
    requires |after| == |before|
    requires forall i :: 0 <= i < |after| ==> after[i] == Toggle(before[|before| - 1 - i])
    ensures after == Flip(before)
  {
  }

  /** What `Scaffold::reverse` does to the contigs of a scaffold without
      duplicates changes its layout to the flipped layout, so, on nucleotide
      data, `get_merged` afterwards spells the reverse complement of what it
      spelled before. */
  twostate lemma ReverseSpellsReverseComplement(was: seq<Contig>, now: seq<Contig>)
    requires |now| == |was|
    requires forall i :: 0 <= i < |now| ==> now[i] == was[|was| - 1 - i]
    requires forall c :: c in now ==> c.reversed == !old(c.reversed)
    requires AllDna(old(Layout(was)))
    ensures Layout(now) == Flip(old(Layout(was)))
    ensures Assemble(Layout(now)) == ReverseComplement(old(Assemble(Layout(was))))
  {
    var before, after := old(Layout(was)), Layout(now);
    forall i | 0 <= i < |now| ensures after[i] == Toggle(before[|before| - 1 - i]) {
      var c := now[i];
      assert c in now;
      assert c.reversed == !old(c.reversed);
    }
    FlippedLayout(before, after);
    AssembleFlip(before);
  }

  class Scaffold {
    /** The founding contig's id; only the constructor assigns it. */
    const id: string
    /** Member contigs in left-to-right join order. */
    var contigs: seq<Contig>

    constructor (contig: Contig)
      ensures id == contig.id && contigs == [contig]
    {
      contigs := [contig];
      id := contig.id;
    }

    /** Relabels every contig of `other` with this scaffold's id, then appends
        `other`'s list to this one. */
    method Merge(other: Scaffold)
      requires other != this
      modifies this`contigs, other.contigs`scaffoldId
      ensures contigs == old(contigs) + other.contigs
      ensures other.contigs == old(other.contigs)
      ensures forall c :: c in other.contigs ==> c.scaffoldId == id
      ensures forall c :: c in old(contigs) && c !in other.contigs ==> c.scaffoldId == old(c.scaffoldId)
    {
      for i := 0 to |other.contigs|
        invariant contigs == old(contigs)
        invariant forall k :: 0 <= k < i ==> other.contigs[k].scaffoldId == id
        invariant forall c :: c in old(contigs) && c !in other.contigs ==> c.scaffoldId == old(c.scaffoldId)
      {
        other.contigs[i].SetScaffoldId(id);
      }
      contigs := contigs + other.contigs;
    }

    /** Reverses the list in place, then toggles the orientation of every
        entry (a contig listed twice would be toggled twice). */
    method Reverse()
      modifies this`contigs, contigs`reversed
      ensures contigs == Reversed(old(contigs))
      ensures forall c :: c in old(contigs) ==> c.reversed == (old(c.reversed) != Flipped(contigs, c))
      ensures Distinct(old(contigs)) ==> forall c :: c in old(contigs) ==> c.reversed == !old(c.reversed)
    {
      contigs := SeqUtil.Reverse(contigs);
      ReversedMembers(old(contigs));
      if Distinct(old(contigs)) {
        ReversedDistinct(old(contigs));
      }
      ToggleAll(contigs);
    }

    /** Concatenates, in list order, each contig's data or, for a reversed
        contig, its reverse complement. */
    method GetMerged() returns (output: string)
      ensures output == Assemble(Layout(contigs))
    {
      output := "";
      for i := 0 to |contigs|
        invariant output == Assemble(Layout(contigs[..i]))
      {
        var c := contigs[i];
        ghost var done, piece := Layout(contigs[..i]), Oriented(c.data, c.reversed);
        assert contigs[..i + 1][..i] == contigs[..i];
        assert Layout(contigs[..i + 1]) == done + [piece];
        assert (done + [piece])[..i] == done;
        if !c.reversed {
          output := output + c.data;
        } else {
          var rc := c.GetReverseComplement();
          output := output + rc;
        }
      }
      assert contigs[..|contigs|] == contigs;
    }
  }
}
