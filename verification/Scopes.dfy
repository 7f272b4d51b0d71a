/** The kinds of access an agent may be allowed, and the bit sets the source
    keeps them in. The rest of the project speaks of sets; the lemmas here say
    that the bits are those sets. */
module Scopes {

  datatype Scope = Read | Navigate | Act | Script

  const ALL: seq<Scope> := [Read, Navigate, Act, Script]

  function Bit(scope: Scope): bv8 {
    match scope
    case Read => 1
    case Navigate => 2
    case Act => 4
    case Script => 8
  }

  /** A set of scopes, as one byte. */
  datatype Bits = Bits(bits: bv8) {
    function With(scope: Scope): Bits {
      Bits(bits | Bit(scope))
    }

    function Union(other: Bits): Bits {
      Bits(bits | other.bits)
    }

    predicate Allows(scope: Scope) {
      bits & Bit(scope) != 0
    }

    predicate Covers(other: Bits) {
      forall i | 0 <= i < |ALL| :: other.Allows(ALL[i]) ==> Allows(ALL[i])
    }

    predicate IsEmpty() {
      bits == 0
    }

    /** No bit but a scope's, as every byte the constructors build. */
    predicate Valid() {
      bits < 16
    }

    /** The set these bits stand for. */
    function View(): set<Scope> {
      set scope | scope in {Read, Navigate, Act, Script} && Allows(scope)
    }
  }

  const NONE := Bits(0)

  function Of(scopes: seq<Scope>): Bits {
    if scopes == [] then NONE else Of(scopes[..|scopes| - 1]).With(scopes[|scopes| - 1])
  }

  /** Membership in the set is the byte's own test. */
  lemma InView(a: Bits, scope: Scope)
    ensures scope in a.View() <==> a.Allows(scope)
  {
    assert scope in {Read, Navigate, Act, Script} by {
      match scope case Read => case Navigate => case Act => case Script =>
    }
  }

  lemma EveryBit(a: bv8, b: bv8)
    requires a < 16 && b < 16
    requires (a & 1 != 0) == (b & 1 != 0) && (a & 2 != 0) == (b & 2 != 0)
    requires (a & 4 != 0) == (b & 4 != 0) && (a & 8 != 0) == (b & 8 != 0)
    ensures a == b
  {
  }

  /** `With` and `Union` are the set operations, and keep a byte valid. */
  lemma BitsAdd(a: Bits, b: Bits, scope: Scope)
    requires a.Valid() && b.Valid()
    ensures a.With(scope).Valid() && a.With(scope).View() == a.View() + {scope}
    ensures a.Union(b).Valid() && a.Union(b).View() == a.View() + b.View()
  {
    forall s: Scope
      ensures s in a.With(scope).View() <==> s in a.View() + {scope}
      ensures s in a.Union(b).View() <==> s in a.View() + b.View()
    {
      InView(a, s);
      InView(b, s);
      InView(a.With(scope), s);
      InView(a.Union(b), s);
    }
  }

  /** `Covers` is inclusion, and two valid bytes are equal exactly when their
      sets are: `IsEmpty` in particular is the empty set. */
  lemma BitsCompare(a: Bits, b: Bits)
    requires a.Valid() && b.Valid()
    ensures a.Covers(b) <==> b.View() <= a.View()
    ensures a == b <==> a.View() == b.View()
    ensures a.IsEmpty() <==> a.View() == {}
  {
    forall s: Scope
      ensures s in a.View() <==> a.Allows(s)
      ensures s in b.View() <==> b.Allows(s)
    {
      InView(a, s);
      InView(b, s);
    }
    assert ALL[0] == Read && ALL[1] == Navigate && ALL[2] == Act && ALL[3] == Script;
    if b.View() <= a.View() {
      assert forall s: Scope :: b.Allows(s) ==> s in b.View();
    }
    if a.View() == b.View() {
      assert a.Allows(Read) == b.Allows(Read) && a.Allows(Navigate) == b.Allows(Navigate);
      assert a.Allows(Act) == b.Allows(Act) && a.Allows(Script) == b.Allows(Script);
      EveryBit(a.bits, b.bits);
    }
    if a.View() == {} {
      assert !a.Allows(Read) && !a.Allows(Navigate) && !a.Allows(Act) && !a.Allows(Script);
      EveryBit(a.bits, 0);
    }
  }

  /** Folding a list of scopes into a byte gives that list's set. */
  lemma {:induction false} OfList(scopes: seq<Scope>)
    ensures Of(scopes).Valid()
    ensures Of(scopes).View() == set s | s in scopes
  {
    if scopes != [] {
      var rest, last := scopes[..|scopes| - 1], scopes[|scopes| - 1];
      OfList(rest);
      BitsAdd(Of(rest), NONE, last);
      assert scopes == rest + [last];
    }
  }
}
