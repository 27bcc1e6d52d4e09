/**
The list of registered probes and its lookup by name. The comparison of names, as written, reports
the index of the first difference negated, so a difference at index 0 looks like equality.
*/
module ProbeRegistry {

  type Name = seq<bv8>

  const MINLONG := -0x8000_0000

  /** Lower case, by setting one bit. */
  function Fold(c: bv8, ignoreCase: bool): bv8 {
    c | (if ignoreCase then 0x20 else 0x00)
  }

  /** The first index from k on at which two names of equal length differ; the length if none. */
  function FirstDifference(a: Name, b: Name, ignoreCase: bool, k: nat): (d: nat)
    requires |a| == |b| && k <= |a|
    ensures k <= d <= |a| && (d < |a| ==> Fold(a[d], ignoreCase) != Fold(b[d], ignoreCase))
    ensures forall j :: k <= j < d ==> Fold(a[j], ignoreCase) == Fold(b[j], ignoreCase)
    decreases |a| - k
  {
    if k == |a| || Fold(a[k], ignoreCase) != Fold(b[k], ignoreCase) then k
    else FirstDifference(a, b, ignoreCase, k + 1)
  }

  function Compare(a: Name, b: Name, ignoreCase: bool): int {
    if |a| != |b| then MINLONG
    else
      var d: int := FirstDifference(a, b, ignoreCase, 0);
      if d == |a| then 0 else -d
  }

  method CompareAnsiString(a: Name, b: Name, ignoreCase: bool) returns (r: int)
    ensures r == Compare(a, b, ignoreCase)
  {
    if |a| != |b| {
      return MINLONG;
    }
    for i := 0 to |a|
      invariant FirstDifference(a, b, ignoreCase, 0) == FirstDifference(a, b, ignoreCase, i)
    {
      if Fold(a[i], ignoreCase) != Fold(b[i], ignoreCase) {
        return -i;
      }
    }
    r := 0;
  }

  /** Equal up to case. */
  ghost predicate Same(a: Name, b: Name) {
    |a| == |b| && forall j :: 0 <= j < |a| ==> Fold(a[j], true) == Fold(b[j], true)
  }

  /** The comparison says "equal" for equal names, and for names of one length that differ in their
      first character. */
  lemma CompareZeroIff(a: Name, b: Name)
    ensures Compare(a, b, true) == 0 <==>
      Same(a, b) || (|a| == |b| && a != [] && Fold(a[0], true) != Fold(b[0], true))
  {
  }

  /** So it is reflexive and symmetric, but not transitive: "ax", "by" and "ay". */
  lemma CompareNoEquivalence(a: Name, b: Name)
    ensures Compare(a, a, true) == 0
    ensures Compare(a, b, true) == 0 ==> Compare(b, a, true) == 0
    ensures Compare([0x61, 0x78], [0x62, 0x79], true) == 0 && Compare([0x62, 0x79], [0x61, 0x79], true) == 0
    ensures Compare([0x61, 0x78], [0x61, 0x79], true) != 0
  {
    CompareZeroIff(a, b);
    CompareZeroIff(b, a);
    CompareZeroIff([0x61, 0x78], [0x62, 0x79]);
    CompareZeroIff([0x62, 0x79], [0x61, 0x79]);
    CompareZeroIff([0x61, 0x78], [0x61, 0x79]);
    assert Fold(0x61, true) != Fold(0x62, true) && Fold(0x78, true) != Fold(0x79, true);
    var p, q: Name := [0x61, 0x78], [0x61, 0x79];
    assert Fold(p[1], true) != Fold(q[1], true);
  }

  // ----- The registry -----

  datatype Probe = Probe(id: int, name: Name)

  /** The first listed probe whose name the comparison accepts; the length if none. */
  function Find(probes: seq<Probe>, name: Name): (k: nat)
    ensures k <= |probes| && (k < |probes| ==> Compare(probes[k].name, name, true) == 0)
    ensures forall j :: 0 <= j < k ==> Compare(probes[j].name, name, true) != 0
  {
    if probes == [] || Compare(probes[0].name, name, true) == 0 then 0 else 1 + Find(probes[1..], name)
  }

  function AfterRegister(probes: seq<Probe>, p: Probe): seq<Probe> {
    if Find(probes, p.name) < |probes| then probes else probes + [p]
  }

  function AfterUnregister(probes: seq<Probe>, p: Probe): seq<Probe> {
    var k := Find(probes, p.name);
    if k < |probes| then probes[..k] + probes[k + 1..] else probes
  }

  class Registry {
    var probes: seq<Probe>
    var numberOfRegisteredProbes: int

    ghost predicate Valid()
      reads this
    {
      numberOfRegisteredProbes == |probes|
    }

    constructor ()
      ensures Valid() && probes == []
    {
      probes, numberOfRegisteredProbes := [], 0;
    }

    method FindProbeByName(name: Name) returns (k: nat)
      ensures k == Find(probes, name)
    {
      k := 0;
      while k < |probes|
        invariant k <= |probes|
        invariant forall j :: 0 <= j < k ==> Compare(probes[j].name, name, true) != 0
      {
        var r := CompareAnsiString(probes[k].name, name, true);
        if r == 0 {
          return;
        }
        k := k + 1;
      }
    }

    method Register(p: Probe) returns (success: bool)
      requires Valid()
      modifies this
      ensures Valid() && probes == AfterRegister(old(probes), p)
      ensures success <==> probes != old(probes)
    {
      var k := FindProbeByName(p.name);
      success := k == |probes|;
      if success {
        probes := probes + [p];
        numberOfRegisteredProbes := numberOfRegisteredProbes + 1;
      }
    }

    /** The result is true also when nothing was found, whatever the list holds. */
    method Unregister(p: Probe) returns (isEmpty: bool)
      requires Valid()
      modifies this
      ensures Valid() && probes == AfterUnregister(old(probes), p)
      ensures isEmpty <==> probes == [] || Find(old(probes), p.name) == |old(probes)|
    {
      isEmpty := true;
      var k := FindProbeByName(p.name);
      if k < |probes| {
        probes := probes[..k] + probes[k + 1..];
        isEmpty := probes == [];
        numberOfRegisteredProbes := numberOfRegisteredProbes - 1;
      }
    }
  }

  datatype Op = Register(probe: Probe) | Unregister(probe: Probe)

  function Run(probes: seq<Probe>, ops: seq<Op>): seq<Probe>
    decreases |ops|
  {
    if ops == [] then probes
    else
      match ops[0]
      case Register(p) => Run(AfterRegister(probes, p), ops[1..])
      case Unregister(p) => Run(AfterUnregister(probes, p), ops[1..])
  }

  /** No listed name is accepted in place of another. */
  ghost predicate Unmatched(probes: seq<Probe>) {
    forall j, k :: 0 <= j < k < |probes| ==> Compare(probes[j].name, probes[k].name, true) != 0
  }

  lemma UnmatchedAfterUnregister(probes: seq<Probe>, p: Probe)
    requires Unmatched(probes)
    ensures Unmatched(AfterUnregister(probes, p))
  {
    var k, r := Find(probes, p.name), AfterUnregister(probes, p);
    if k < |probes| {
      assert forall j :: 0 <= j < |r| ==> r[j] == if j < k then probes[j] else probes[j + 1];
    }
  }

  lemma {:induction false} RunUnmatched(probes: seq<Probe>, ops: seq<Op>)
    requires Unmatched(probes)
    ensures Unmatched(Run(probes, ops))
    decreases |ops|
  {
    if ops != [] {
      match ops[0]
      case Register(p) => RunUnmatched(AfterRegister(probes, p), ops[1..]);
      case Unregister(p) =>
        UnmatchedAfterUnregister(probes, p);
        RunUnmatched(AfterUnregister(probes, p), ops[1..]);
    }
  }

  /** After any sequence of registrations and removals the listed names are pairwise unequal under the
      comparison as written, looking up a listed name finds its own entry, and unregistering a
      listed probe removes exactly that entry. */
  lemma LookupFindsOwnEntry(ops: seq<Op>, k: nat)
    requires k < |Run([], ops)|
    ensures var probes := Run([], ops);
      && Unmatched(probes) && Find(probes, probes[k].name) == k
      && AfterUnregister(probes, probes[k]) == probes[..k] + probes[k + 1..]
  {
    RunUnmatched([], ops);
    var probes := Run([], ops);
    CompareNoEquivalence(probes[k].name, probes[k].name);
  }

  /** The comparison accepts a for b: equal up to case, or of one length and different at index 0. */
  ghost predicate Accepted(a: Name, b: Name) {
    Same(a, b) || (|a| == |b| && a != [] && Fold(a[0], true) != Fold(b[0], true))
  }

  /** Unregistering a probe that is not listed, because its registration was refused, removes the first
      entry whose name the comparison accepts for its own: another probe's entry, if and only if
      some listed name equals its name up to case, or has the same length and differs at index 0. */
  lemma UnregisterTakesAnotherIff(ops: seq<Op>, p: Probe)
    requires p !in Run([], ops)
    ensures var probes := Run([], ops);
      AfterUnregister(probes, p) != probes <==> exists k :: 0 <= k < |probes| && Accepted(probes[k].name, p.name)
  {
    var probes := Run([], ops);
    var found := Find(probes, p.name);
    forall k | 0 <= k < |probes| ensures Accepted(probes[k].name, p.name) <==> Compare(probes[k].name, p.name, true) == 0 {
      CompareZeroIff(probes[k].name, p.name);
    }
    if found < |probes| {
      assert Accepted(probes[found].name, p.name);
      assert |AfterUnregister(probes, p)| < |probes|;
    }
  }

  /** "by" differs from the listed "ax" at index 0: its registration is refused, and unregistering it,
      as its destructor does, removes the entry of "ax". */
  lemma RefusedTakesAnother(id: int, other: int)
    ensures var p, q := Probe(id, [0x61, 0x78]), Probe(other, [0x62, 0x79]);
      && AfterRegister([p], q) == [p]
      && AfterUnregister([p], q) == []
  {
    CompareNoEquivalence([0x61], [0x61]);
  }

  // ----- Case -----

  /** Two characters fold together if and only if they are equal or differ in the bit of case alone. */
  lemma FoldSame(x: bv8, y: bv8)
    ensures Fold(x, true) == Fold(y, true) <==> (x == y || x ^ y == 0x20)
    ensures Fold(x, false) == x
  {
  }

  /** Names that differ only in the case of letters compare equal when case is ignored. */
  lemma CaseIgnored(a: Name, b: Name)
    requires |a| == |b|
    requires forall j :: 0 <= j < |a| ==> a[j] == b[j] || a[j] ^ b[j] == 0x20
    ensures Compare(a, b, true) == 0
  {
    forall j | 0 <= j < |a| ensures Fold(a[j], true) == Fold(b[j], true) {
      FoldSame(a[j], b[j]);
    }
    CompareZeroIff(a, b);
  }

  /** When case counts, the comparison says "equal" for equal names, and for those that differ at index 0. */
  lemma CompareExactIff(a: Name, b: Name)
    ensures Compare(a, b, false) == 0 <==> a == b || (|a| == |b| && a != [] && a[0] != b[0])
  {
    forall x: bv8 ensures Fold(x, false) == x {
      FoldSame(x, x);
    }
  }

  /** What the comparison returns for unequal names: the smallest long, or the negated index of the first
      difference. */
  lemma CompareIs(a: Name, b: Name, ignoreCase: bool, d: nat)
    requires |a| != |b| || d < |a|
    requires |a| == |b| ==> Fold(a[d], ignoreCase) != Fold(b[d], ignoreCase)
    requires |a| == |b| ==> forall j :: 0 <= j < d ==> Fold(a[j], ignoreCase) == Fold(b[j], ignoreCase)
    ensures Compare(a, b, ignoreCase) == if |a| != |b| then -0x8000_0000 else -(d as int)
  {
  }

  /** Registration adds the probe, unless the comparison accepts a listed name for its own. */
  lemma RegisterIs(probes: seq<Probe>, p: Probe)
    ensures AfterRegister(probes, p) ==
      if exists k :: 0 <= k < |probes| && Accepted(probes[k].name, p.name) then probes else probes + [p]
  {
    forall k | 0 <= k < |probes| ensures Accepted(probes[k].name, p.name) <==> Compare(probes[k].name, p.name, true) == 0 {
      CompareZeroIff(probes[k].name, p.name);
    }
    var k := Find(probes, p.name);
    if k < |probes| {
      assert Accepted(probes[k].name, p.name);
    }
  }
}
