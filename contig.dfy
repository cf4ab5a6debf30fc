/** A contig: one input sequence fragment, its scaffold membership, its
    orientation inside that scaffold and whether each of its two physical ends
    is still free to be joined (contig.h, contig.cpp). */
module Contigs {
  import opened SeqUtil

  /** A nucleotide letter. */
  predicate IsBase(b: char)
  {
    b == 'A' || b == 'C' || b == 'G' || b == 'T'
  }

  /** Every letter of `s` is a nucleotide. */
  predicate IsDna(s: string)
  {
    forall i :: 0 <= i < |s| ==> IsBase(s[i])
  }

  /** Watson-Crick partner of a nucleotide. */
  function Partner(b: char): (p: char)
    requires IsBase(b)
    ensures IsBase(p) && p != b
  {
    match b
    case 'A' => 'T'
    case 'T' => 'A'
    case 'C' => 'G'
    case 'G' => 'C'
  }

  /** What one letter contributes to the complemented string: its partner for
      a nucleotide, nothing for any other character. */
  function Complement(b: char): string
  {
    if IsBase(b) then [Partner(b)] else []
  }

  /** The string `get_reverse_complement` builds before it reverses it. */
  function Complemented(s: string): string
  {
    if s == [] then [] else Complemented(s[..|s| - 1]) + Complement(s[|s| - 1])
  }

  /** `get_reverse_complement` as a function of the contig's data. */
  function ReverseComplement(s: string): string
  {
    Reversed(Complemented(s))
  }

  /** Number of nucleotide letters in `s`. */
  function CountBases(s: string): nat
  {
    if s == [] then 0 else CountBases(s[..|s| - 1]) + (if IsBase(s[|s| - 1]) then 1 else 0)
  }

  lemma {:induction false} ComplementedAppend(a: string, b: string)
    ensures Complemented(a + b) == Complemented(a) + Complemented(b)
  {
    if b == [] {
      assert a + b == a;
    } else {
      var b' := b[..|b| - 1];
      assert (a + b)[..|a + b| - 1] == a + b';
      ComplementedAppend(a, b');
    }
  }

  lemma {:induction false} ComplementedLength(s: string)
    ensures |Complemented(s)| == CountBases(s)
  {
    if s != [] {
      ComplementedLength(s[..|s| - 1]);
    }
  }

  lemma {:induction false} ComplementedIsDna(s: string)
    ensures IsDna(Complemented(s))
  {
    if s != [] {
      var s' := s[..|s| - 1];
      ComplementedIsDna(s');
      var c, tail := Complemented(s'), Complement(s[|s| - 1]);
      assert Complemented(s) == c + tail;
      forall k | 0 <= k < |c + tail| ensures IsBase((c + tail)[k]) {
        if k >= |c| {
          assert (c + tail)[k] == tail[k - |c|];
        }
      }
    }
  }

  lemma {:induction false} ComplementedAt(s: string, i: int)
    requires IsDna(s) && 0 <= i < |s|
    ensures |Complemented(s)| == |s| && Complemented(s)[i] == Partner(s[i])
  {
    var n := |s|;
    var s' := s[..n - 1];
    assert IsDna(s');
    assert Complemented(s) == Complemented(s') + [Partner(s[n - 1])];
    if i < n - 1 {
      ComplementedAt(s', i);
    } else if n > 1 {
      ComplementedAt(s', 0);
    } else {
      assert s' == [];
    }
  }

  /** The output consists of nucleotides only: one per nucleotide of the input,
      every other character is dropped. */
  lemma ReverseComplementLength(s: string)
    ensures |ReverseComplement(s)| == CountBases(s)
    ensures IsDna(ReverseComplement(s))
  {
    ComplementedLength(s);
    ComplementedIsDna(s);
    var c := Complemented(s);
    forall k | 0 <= k < |c| ensures IsBase(Reversed(c)[k]) {
      assert Reversed(c)[k] == c[|c| - 1 - k];
    }
  }

  /** On a nucleotide string, position `i` of the reverse complement is the
      partner of position `|s| - 1 - i` of the input. */
  lemma ReverseComplementAt(s: string, i: int)
    requires IsDna(s) && 0 <= i < |s|
    ensures |ReverseComplement(s)| == |s|
    ensures ReverseComplement(s)[i] == Partner(s[|s| - 1 - i])
  {
    var c := Complemented(s);
    ComplementedAt(s, |s| - 1 - i);
    assert ReverseComplement(s) == Reversed(c);
  }

  /** Reverse complement turns a concatenation around. */
  lemma ReverseComplementAppend(a: string, b: string)
    ensures ReverseComplement(a + b) == ReverseComplement(b) + ReverseComplement(a)
  {
    ComplementedAppend(a, b);
    ReversedAppend(Complemented(a), Complemented(b));
  }

  lemma PartnerTwice(b: char)
    requires IsBase(b)
    ensures Partner(Partner(b)) == b
  {
  }

  lemma ReverseComplementTwiceAt(s: string, i: int)
    requires IsDna(s) && 0 <= i < |s|
    ensures |ReverseComplement(ReverseComplement(s))| == |s|
    ensures ReverseComplement(ReverseComplement(s))[i] == s[i]
  {
    var r := ReverseComplement(s);
    ReverseComplementLength(s);
    ReverseComplementAt(s, |s| - 1 - i);
    ReverseComplementAt(r, i);
    PartnerTwice(s[i]);
  }

  /** On a nucleotide string the reverse complement is an involution. */
  lemma ReverseComplementTwice(s: string)
    requires IsDna(s)
    ensures ReverseComplement(ReverseComplement(s)) == s
  {
    var rr := ReverseComplement(ReverseComplement(s));
    if s == [] {
      assert Complemented(s) == [];
      assert Complemented(ReverseComplement(s)) == [];
    } else {
      ReverseComplementTwiceAt(s, 0);
      forall i | 0 <= i < |s| ensures rr[i] == s[i] {
        ReverseComplementTwiceAt(s, i);
      }
    }
  }

  class Contig {
    /** Identifier and sequence: set once by the constructor, no setter. */
    const id: string
    const data: string
    /** Id of the scaffold this contig currently belongs to. */
    var scaffoldId: string
    /** Orientation relative to its scaffold's reading direction. */
    var reversed: bool
    /** Whether the physical start / end of the sequence is still free. */
    var start: bool
    var end: bool

    constructor (id: string, data: string)
      ensures this.id == id && this.data == data
      ensures scaffoldId == id && !reversed && start && end
    {
      this.id := id;
      this.data := data;
      scaffoldId := id;
      reversed := false;
      start, end := true, true;
    }

    method SetScaffoldId(scaffoldId: string)
      modifies this`scaffoldId
      ensures this.scaffoldId == scaffoldId
    {
      this.scaffoldId := scaffoldId;
    }

    /** Toggles the orientation flag; nothing else changes. */
    method Reverse()
      modifies this`reversed
      ensures reversed == !old(reversed)
    {
      reversed := !reversed;
    }

    method SetStart(start: bool)
      modifies this`start
      ensures this.start == start
    {
      this.start := start;
    }

    method SetEnd(end: bool)
      modifies this`end
      ensures this.end == end
    {
      this.end := end;
    }

    /** Complements every nucleotide (dropping anything else) into a fresh
        string, then reverses that string in place. */
    method GetReverseComplement() returns (c: string)
      ensures c == ReverseComplement(data)
    {
      c := "";
      for i := 0 to |data|
        invariant c == Complemented(data[..i])
      {
        var base := data[i];
        if base == 'A' { c := c + ['T']; }
        if base == 'T' { c := c + ['A']; }
        if base == 'C' { c := c + ['G']; }
        if base == 'G' { c := c + ['C']; }
        assert data[..i + 1][..i] == data[..i];
      }
      assert data[..|data|] == data;
      c := SeqUtil.Reverse(c);
    }
  }
}
