/** `dipole_atom2molindex`: turns an atom-index selection into molecule numbers,
    in place, after checking that the selection consists of whole molecules.

    The molecule block is its index table `starts` (`mols->index`): there are
    `|starts| - 1` molecules and molecule m owns atoms `starts[m] .. starts[m+1]-1`. */
module Selection {

  /** The two fatal errors of the conversion (positions and atoms are 0-based here;
      the original prints them 1-based). */
  datatype SelectionError =
    | NotFirstAtom(position: nat, atom: int)
    | NotWholeMolecules

  datatype Result<T> = Ok(value: T) | Err(error: SelectionError)

  /** The table is strictly increasing, so no molecule is empty. */
  predicate ValidBlock(starts: seq<int>) {
    |starts| >= 1 && forall m :: 0 <= m < |starts| - 1 ==> NonEmpty(starts, m)
  }

  /** Molecule m owns at least one atom. */
  predicate NonEmpty(starts: seq<int>, m: nat)
    requires m + 1 < |starts|
  {
    starts[m] < starts[m + 1]
  }

  lemma {:induction false} StartsIncrease(starts: seq<int>, a: nat, b: nat)
    requires ValidBlock(starts) && a < b < |starts|
    ensures starts[a] < starts[b]
    decreases b - a
  {
    assert NonEmpty(starts, a);
    if a + 1 < b {
      StartsIncrease(starts, a + 1, b);
    }
  }

  /** Molecule numbers that exist in the block. */
  predicate ValidMolecules(starts: seq<int>, ms: seq<int>) {
    forall k :: 0 <= k < |ms| ==> 0 <= ms[k] < |starts| - 1
  }

  /** The first molecule at or after `from` whose first atom is `atom`, or the
      number of molecules when there is none (the search loop over `m`). */
  function FirstMolecule(starts: seq<int>, atom: int, from: nat): (m: nat)
    requires |starts| >= 1 && from <= |starts| - 1
    ensures from <= m <= |starts| - 1
    ensures m < |starts| - 1 ==> starts[m] == atom
    ensures forall k :: from <= k < m ==> starts[k] != atom
    decreases |starts| - 1 - from
  {
    if from == |starts| - 1 || starts[from] == atom then from
    else FirstMolecule(starts, atom, from + 1)
  }

  /** The atoms of molecule m, in order. */
  function MoleculeAtoms(starts: seq<int>, m: int): (atoms: seq<int>)
    requires ValidBlock(starts) && 0 <= m < |starts| - 1
    ensures |atoms| == starts[m + 1] - starts[m] >= 1
    ensures forall k :: 0 <= k < |atoms| ==> atoms[k] == starts[m] + k
  {
    assert NonEmpty(starts, m);
    seq(starts[m + 1] - starts[m], k => starts[m] + k)
  }

  /** The selection holds exactly `atoms` from position i on. */
  predicate WholeMoleculeAt(sel: seq<int>, i: nat, atoms: seq<int>) {
    i + |atoms| <= |sel| && sel[i..i + |atoms|] == atoms
  }

  /** The selection written back as atoms: the molecules' atom ranges, concatenated. */
  function Expand(starts: seq<int>, ms: seq<int>): seq<int>
    requires ValidBlock(starts) && ValidMolecules(starts, ms)
  {
    if ms == [] then [] else MoleculeAtoms(starts, ms[0]) + Expand(starts, ms[1..])
  }

  function Prepend(p: seq<int>, r: Result<seq<int>>): Result<seq<int>> {
    match r
    case Ok(v) => Ok(p + v)
    case Err(e) => Err(e)
  }

  /** What the conversion computes for the selection from position i on. */
  function CompactFrom(sel: seq<int>, starts: seq<int>, i: nat): Result<seq<int>>
    requires ValidBlock(starts) && i <= |sel|
    decreases |sel| - i
  {
    if i == |sel| then Ok([])
    else
      var m := FirstMolecule(starts, sel[i], 0);
      if m == |starts| - 1 then Err(NotFirstAtom(i, sel[i]))
      else
        var atoms := MoleculeAtoms(starts, m);
        if !WholeMoleculeAt(sel, i, atoms) then Err(NotWholeMolecules)
        else Prepend([m], CompactFrom(sel, starts, i + |atoms|))
  }

  /** The first fatal error names a position of the selection, and the atom there
      is the first atom of no molecule. */
  lemma {:induction false} CompactFromNotFirstAtom(sel: seq<int>, starts: seq<int>, i: nat)
    requires ValidBlock(starts) && i <= |sel|
    requires CompactFrom(sel, starts, i).Err? && CompactFrom(sel, starts, i).error.NotFirstAtom?
    ensures var e := CompactFrom(sel, starts, i).error;
      i <= e.position < |sel| && sel[e.position] == e.atom && e.atom !in starts[..|starts| - 1]
    decreases |sel| - i
  {
    var m := FirstMolecule(starts, sel[i], 0);
    if m == |starts| - 1 {
      var firsts := starts[..|starts| - 1];
      assert forall k :: 0 <= k < |firsts| ==> firsts[k] != sel[i];
    } else {
      CompactFromNotFirstAtom(sel, starts, i + |MoleculeAtoms(starts, m)|);
    }
  }

  function Compact(sel: seq<int>, starts: seq<int>): Result<seq<int>>
    requires ValidBlock(starts)
  {
    CompactFrom(sel, starts, 0)
  }

  /** The molecule whose first atom is `starts[m]` is m: the table is strictly increasing. */
  lemma FirstMoleculeOfStart(starts: seq<int>, m: int)
    requires ValidBlock(starts) && 0 <= m < |starts| - 1
    ensures FirstMolecule(starts, starts[m], 0) == m
  {
    forall k | 0 <= k < m
      ensures starts[k] != starts[m]
    {
      StartsIncrease(starts, k, m);
    }
  }

  /** Accepted selections are whole molecules: the result names molecules of the block,
      and expanding it gives the selection back. */
  lemma {:induction false} CompactFromExpands(sel: seq<int>, starts: seq<int>, i: nat)
    requires ValidBlock(starts) && i <= |sel| && CompactFrom(sel, starts, i).Ok?
    ensures ValidMolecules(starts, CompactFrom(sel, starts, i).value)
    ensures Expand(starts, CompactFrom(sel, starts, i).value) == sel[i..]
    decreases |sel| - i
  {
    if i < |sel| {
      var m, next := AcceptedMolecule(sel, starts, i);
      var rest := CompactFrom(sel, starts, next).value;
      CompactFromExpands(sel, starts, next);
      ExpandCons(starts, m, rest);
      assert sel[i..] == sel[i..next] + sel[next..];
    }
  }

  /** An accepted selection starts with a whole molecule, and its conversion goes on
      after that molecule's atoms. */
  lemma AcceptedMolecule(sel: seq<int>, starts: seq<int>, i: nat) returns (m: nat, next: nat)
    requires ValidBlock(starts) && i < |sel| && CompactFrom(sel, starts, i).Ok?
    ensures m < |starts| - 1 && next == i + |MoleculeAtoms(starts, m)|
    ensures WholeMoleculeAt(sel, i, MoleculeAtoms(starts, m))
    ensures CompactFrom(sel, starts, next).Ok?
    ensures CompactFrom(sel, starts, i).value == [m] + CompactFrom(sel, starts, next).value
  {
    m := FirstMolecule(starts, sel[i], 0);
    next := i + |MoleculeAtoms(starts, m)|;
  }

  lemma ExpandCons(starts: seq<int>, m: int, rest: seq<int>)
    requires ValidBlock(starts) && 0 <= m < |starts| - 1 && ValidMolecules(starts, rest)
    ensures ValidMolecules(starts, [m] + rest)
    ensures Expand(starts, [m] + rest) == MoleculeAtoms(starts, m) + Expand(starts, rest)
  {
    assert ([m] + rest)[1..] == rest;
  }

  /** Every sequence of whole molecules is accepted and converted to its molecule numbers. */
  lemma {:induction false} CompactFromOfExpansion(sel: seq<int>, starts: seq<int>, ms: seq<int>, i: nat)
    requires ValidBlock(starts) && ValidMolecules(starts, ms)
    requires i <= |sel| && sel[i..] == Expand(starts, ms)
    ensures CompactFrom(sel, starts, i) == Ok(ms)
    decreases |ms|
  {
    if ms == [] {
      assert |sel[i..]| == 0;
    } else {
      var next := ExpansionStep(sel, starts, ms, i);
      CompactFromOfExpansion(sel, starts, ms[1..], next);
      assert ms == [ms[0]] + ms[1..];
    }
  }

  /** The first molecule of an expansion is accepted, and the rest of the selection
      is the expansion of the remaining molecules. */
  lemma ExpansionStep(sel: seq<int>, starts: seq<int>, ms: seq<int>, i: nat) returns (next: nat)
    requires ValidBlock(starts) && ValidMolecules(starts, ms) && ms != []
    requires i <= |sel| && sel[i..] == Expand(starts, ms)
    ensures next <= |sel| && sel[next..] == Expand(starts, ms[1..])
    ensures CompactFrom(sel, starts, i) == Prepend([ms[0]], CompactFrom(sel, starts, next))
  {
    var m := ms[0];
    var atoms := MoleculeAtoms(starts, m);
    ExpansionHead(sel, starts, ms, i);
    assert sel[i] == starts[m] by {
      assert sel[i..i + |atoms|][0] == atoms[0];
    }
    FirstMoleculeOfStart(starts, m);
    CompactFromStep(sel, starts, i, m);
    next := i + |atoms|;
  }

  /** An expansion begins with its first molecule's atoms. */
  lemma ExpansionHead(sel: seq<int>, starts: seq<int>, ms: seq<int>, i: nat)
    requires ValidBlock(starts) && ValidMolecules(starts, ms) && ms != []
    requires i <= |sel| && sel[i..] == Expand(starts, ms)
    ensures WholeMoleculeAt(sel, i, MoleculeAtoms(starts, ms[0]))
    ensures sel[i + |MoleculeAtoms(starts, ms[0])|..] == Expand(starts, ms[1..])
  {
    assert ms == [ms[0]] + ms[1..];
    ExpandCons(starts, ms[0], ms[1..]);
    SplitSuffix(sel, i, MoleculeAtoms(starts, ms[0]), Expand(starts, ms[1..]));
  }

  lemma SplitSuffix(sel: seq<int>, i: nat, a: seq<int>, b: seq<int>)
    requires i <= |sel| && sel[i..] == a + b
    ensures i + |a| <= |sel| && sel[i..i + |a|] == a && sel[i + |a|..] == b
  {
    assert sel[i..i + |a|] == sel[i..][..|a|];
    assert sel[i + |a|..] == sel[i..][|a|..];
  }

  /** The conversion accepts exactly the selections made of whole molecules,
      and returns their molecule numbers in selection order. */
  lemma CompactRoundTrip(sel: seq<int>, starts: seq<int>, ms: seq<int>)
    requires ValidBlock(starts) && ValidMolecules(starts, ms)
    ensures Compact(Expand(starts, ms), starts) == Ok(ms)
    ensures Compact(sel, starts) == Ok(ms) <==> sel == Expand(starts, ms)
  {
    CompactFromOfExpansion(Expand(starts, ms), starts, ms, 0);
    if Compact(sel, starts) == Ok(ms) {
      CompactFromExpands(sel, starts, 0);
      assert sel[0..] == sel;
    }
  }

  /** A rejected selection is not a sequence of whole molecules. */
  lemma CompactRejectsOnlyPartialMolecules(sel: seq<int>, starts: seq<int>, ms: seq<int>)
    requires ValidBlock(starts) && ValidMolecules(starts, ms) && Compact(sel, starts).Err?
    ensures sel != Expand(starts, ms)
  {
    CompactRoundTrip(sel, starts, ms);
  }

  /** One accepted molecule: the conversion goes on after its atoms. */
  lemma CompactFromStep(sel: seq<int>, starts: seq<int>, i: nat, m: int)
    requires ValidBlock(starts) && i < |sel| && m == FirstMolecule(starts, sel[i], 0) < |starts| - 1
    requires WholeMoleculeAt(sel, i, MoleculeAtoms(starts, m))
    ensures CompactFrom(sel, starts, i)
         == Prepend([m], CompactFrom(sel, starts, i + |MoleculeAtoms(starts, m)|))
  {
  }

  /** The scan's invariant after one accepted molecule: its number joins the
      output written so far, and the conversion goes on after its atoms. */
  lemma AcceptMolecule(sel: seq<int>, starts: seq<int>, before: seq<int>, i: nat, m: int, next: nat)
    requires ValidBlock(starts) && i < |sel| && m == FirstMolecule(starts, sel[i], 0) < |starts| - 1
    requires WholeMoleculeAt(sel, i, MoleculeAtoms(starts, m)) && next == i + |MoleculeAtoms(starts, m)|
    requires Compact(sel, starts) == Prepend(before, CompactFrom(sel, starts, i))
    ensures Compact(sel, starts) == Prepend(before + [m], CompactFrom(sel, starts, next))
  {
    CompactFromStep(sel, starts, i, m);
    PrependTwice(before, m, CompactFrom(sel, starts, next));
  }

  lemma PrependTwice(p: seq<int>, m: int, r: Result<seq<int>>)
    ensures Prepend(p, Prepend([m], r)) == Prepend(p + [m], r)
  {
    if r.Ok? {
      assert p + ([m] + r.value) == (p + [m]) + r.value;
    }
  }

  /** Whether a molecule sits at position i depends only on the selection from i on. */
  lemma WholeMoleculeAtSuffix(a: seq<int>, b: seq<int>, i: nat, atoms: seq<int>)
    requires |a| == |b| && i <= |a| && a[i..] == b[i..]
    ensures WholeMoleculeAt(a, i, atoms) <==> WholeMoleculeAt(b, i, atoms)
  {
    if i + |atoms| <= |a| {
      assert a[i..i + |atoms|] == a[i..][..|atoms|];
      assert b[i..i + |atoms|] == b[i..][..|atoms|];
    }
  }

  /** The search loop over m: the molecule whose first atom is `atom`. */
  method FindMolecule(starts: seq<int>, atom: int) returns (m: nat)
    requires |starts| >= 1
    ensures m <= |starts| - 1
    ensures m < |starts| - 1 ==> starts[m] == atom
    ensures m == |starts| - 1 <==> atom !in starts[..|starts| - 1]
    ensures m == FirstMolecule(starts, atom, 0)
  {
    m := 0;
    while m < |starts| - 1 && atom != starts[m]
      invariant 0 <= m <= |starts| - 1
      invariant forall k :: 0 <= k < m ==> starts[k] != atom
    {
      m := m + 1;
    }
  }

  /** The loop over j: do `index[i..]` continue with the atoms of molecule m,
      `mols->index[m] .. mols->index[m+1]-1`, in order, before position n? On
      success, `next` is the position after them. */
  method MatchAtoms(index: array<int>, n: nat, i: nat, starts: seq<int>, m: nat) returns (ok: bool, next: nat)
    requires ValidBlock(starts) && m < |starts| - 1 && i <= n <= index.Length
    ensures ok <==> WholeMoleculeAt(index[..n], i, MoleculeAtoms(starts, m))
    ensures ok ==> next == i + |MoleculeAtoms(starts, m)|
  {
    ghost var atoms := MoleculeAtoms(starts, m);
    next := i;
    var j := starts[m];
    while j < starts[m + 1]
      invariant starts[m] <= j <= starts[m + 1]
      invariant next == i + (j - starts[m]) && next <= n
      invariant forall k :: i <= k < next ==> index[k] == atoms[k - i]
    {
      if next >= n || index[next] != j {
        assert !WholeMoleculeAt(index[..n], i, atoms) by {
          if next < n && i + |atoms| <= n {
            assert index[..n][i..i + |atoms|][next - i] != atoms[next - i];
          }
        }
        return false, next;
      }
      next := next + 1;
      j := j + 1;
    }
    assert index[..n][i..next] == atoms;
    return true, next;
  }

  /** The scan's invariant before the first entry: nothing written yet. */
  lemma ScanStart(sel: seq<int>, starts: seq<int>)
    requires ValidBlock(starts)
    ensures Compact(sel, starts) == Prepend([], CompactFrom(sel, starts, 0))
  {
    if CompactFrom(sel, starts, 0).Ok? {
      assert [] + CompactFrom(sel, starts, 0).value == CompactFrom(sel, starts, 0).value;
    }
  }

  /** The scan reached the end: the conversion's result is what it wrote. */
  lemma ScanEnd(sel: seq<int>, starts: seq<int>, out: seq<int>)
    requires ValidBlock(starts) && Compact(sel, starts) == Prepend(out, CompactFrom(sel, starts, |sel|))
    ensures Compact(sel, starts) == Ok(out)
  {
    assert out + [] == out;
  }

  /** An entry that starts no molecule: the first fatal error, at that position. */
  lemma RejectNotFirst(sel: seq<int>, starts: seq<int>, out: seq<int>, i: nat)
    requires ValidBlock(starts) && i < |sel| && FirstMolecule(starts, sel[i], 0) == |starts| - 1
    requires Compact(sel, starts) == Prepend(out, CompactFrom(sel, starts, i))
    ensures Compact(sel, starts) == Err(NotFirstAtom(i, sel[i]))
  {
  }

  /** A molecule start not followed by the rest of its atoms: the second fatal error. */
  lemma RejectPartial(sel: seq<int>, starts: seq<int>, out: seq<int>, i: nat, m: nat)
    requires ValidBlock(starts) && i < |sel| && m == FirstMolecule(starts, sel[i], 0) < |starts| - 1
    requires !WholeMoleculeAt(sel, i, MoleculeAtoms(starts, m))
    requires Compact(sel, starts) == Prepend(out, CompactFrom(sel, starts, i))
    ensures Compact(sel, starts) == Err(NotWholeMolecules)
  {
  }

  /** The entries the scan has not reached are still the selection's. */
  lemma UnwrittenSuffix(index: array<int>, sel: seq<int>, orig: seq<int>, nmol: nat, i: nat, n: nat)
    requires nmol <= i <= n <= index.Length == |orig| && sel == orig[..n]
    requires forall k :: nmol <= k < index.Length ==> index[k] == orig[k]
    ensures index[..n][i..] == sel[i..]
  {
  }

  /** The entries past the written output are the original ones. */
  lemma UntouchedTail(index: array<int>, orig: seq<int>, nmol: nat)
    requires nmol <= index.Length == |orig|
    requires forall k :: nmol <= k < index.Length ==> index[k] == orig[k]
    ensures index[nmol..] == orig[nmol..]
  {
  }

  /** `dipole_atom2molindex`: rewrites `index[0..n)` in place into molecule numbers and
      returns the new count (`*n = nmol`), or the fatal error. Every write lands at a
      position the scan has already passed (`nmol <= i`). */
  method AtomToMolIndex(n: nat, index: array<int>, starts: seq<int>) returns (r: Result<nat>)
    requires ValidBlock(starts) && n <= index.Length
    modifies index
    ensures match Compact(old(index[..n]), starts)
      case Ok(ms) =>
        r == Ok(|ms|) && |ms| <= n && index[..|ms|] == ms && index[|ms|..] == old(index[|ms|..])
      case Err(e) => r == Err(e)
  {
    ghost var sel := index[..n];
    ghost var orig := index[..];
    var nmol: nat := 0;
    var i: nat := 0;
    ScanStart(sel, starts);
    while i < n
      invariant nmol <= i <= n
      invariant forall k :: nmol <= k < index.Length ==> index[k] == orig[k]
      invariant Compact(sel, starts) == Prepend(index[..nmol], CompactFrom(sel, starts, i))
    {
      ghost var out := index[..nmol];
      UnwrittenSuffix(index, sel, orig, nmol, i, n);
      var m := FindMolecule(starts, index[i]);
      if m == |starts| - 1 {
        RejectNotFirst(sel, starts, out, i);
        return Err(NotFirstAtom(i, index[i]));
      }
      var ok, next := MatchAtoms(index, n, i, starts, m);
      WholeMoleculeAtSuffix(index[..n], sel, i, MoleculeAtoms(starts, m));
      if !ok {
        RejectPartial(sel, starts, out, i, m);
        return Err(NotWholeMolecules);
      }
      AcceptMolecule(sel, starts, out, i, m, next);
      i := next;
      index[nmol] := m;
      nmol := nmol + 1;
      assert index[..nmol] == out + [m];
    }
    ScanEnd(sel, starts, index[..nmol]);
    UntouchedTail(index, orig, nmol);
    return Ok(nmol);
  }
}
