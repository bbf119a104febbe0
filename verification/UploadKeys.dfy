/** The key one upload is saved under, and exactly when it can be trusted to be unique. */
module UploadKeys {
  import opened PartTiling
  import opened UploadServer

  type Base = string

  function ScopeName(scope: Scope): string {
    match scope
    case CatalogSubmission => "catalog-submission"
    case AutomationInput => "automation-input"
    case File => "file"
    case BrandPage => "brand-page"
  }

  function Where(target: Target): string {
    match target
    case Project(projectId) => "project:" + projectId
    case Scoped(scope) => "upload:" + ScopeName(scope)
  }

  /** The first lines of the hashed text. The two lines after them, 64 hexadecimal digits and
      a decimal number, hold no line break, so the text splits into the three in one way only. */
  function Head(base: Base, target: Target): string {
    base + "\n" + Where(target)
  }

  /** The digest of the text: equal keys have equal text. */
  datatype Key = KeyOf(head: string, checksum: Digest, size: nat)

  function StateKey(base: Base, target: Target, checksum: Digest, size: nat): Key {
    KeyOf(Head(base, target), checksum, size)
  }

  const MARK := "\nproject:"

  predicate MarkAt(base: Base, i: nat) {
    i + |MARK| <= |base| && base[i..i + |MARK|] == MARK
  }

  /** The base address itself holds a line that starts with "project:". */
  predicate Ambiguous(base: Base) {
    exists i: nat :: i < |base| && MarkAt(base, i)
  }

  lemma {:induction false} WhereHasNoBreak(target: Target)
    requires target.Scoped?
    ensures forall i :: 0 <= i < |Where(target)| ==> Where(target)[i] != '\n'
  {
  }

  lemma WhereInjective(a: Target, b: Target)
    requires Where(a) == Where(b)
    ensures a == b
  {
    assert Where(a)[0] == Where(b)[0];
    match a {
      case Project(p) => assert b.Project? && p == Where(a)[|"project:"|..];
      case Scoped(s) =>
        assert b.Scoped?;
        assert ScopeName(s) == Where(a)[|"upload:"|..] == ScopeName(b.scope);
        assert |ScopeName(s)| == |ScopeName(b.scope)|;
    }
  }

  /** The head, one character at a time. */
  lemma HeadAt(base: Base, t: Target, i: nat)
    requires i < |Head(base, t)|
    ensures Head(base, t)[i] ==
      if i < |base| then base[i] else if i == |base| then '\n' else Where(t)[i - |base| - 1]
  {
  }

  /** Where the longer base ends, the shorter one's target has a line break, which only a project
      name can hold. */
  lemma BreakInProject(shorter: Base, a: Target, longer: Base, b: Target)
    requires |shorter| < |longer| && Head(shorter, a) == Head(longer, b)
    ensures a.Project? && |longer| - |shorter| - 1 >= |"project:"|
  {
    var gap := |longer| - |shorter| - 1;
    HeadAt(shorter, a, |longer|);
    HeadAt(longer, b, |longer|);
    assert Where(a)[gap] == '\n';
    if a.Scoped? {
      WhereHasNoBreak(a);
      assert false;
    } else {
      PrefixHasNoBreak(a, gap);
    }
  }

  lemma PrefixHasNoBreak(a: Target, i: nat)
    requires a.Project? && i < |Where(a)|
    ensures i < |"project:"| ==> Where(a)[i] == "project:"[i] && "project:"[i] != '\n'
  {
  }

  /** One unit of the mark, found in the longer base. */
  lemma MarkUnit(shorter: Base, a: Target, longer: Base, b: Target, i: nat)
    requires |shorter| < |longer| && Head(shorter, a) == Head(longer, b) && i < |MARK|
    requires a.Project? && |longer| - |shorter| - 1 >= |"project:"|
    ensures longer[|shorter| + i] == MARK[i]
  {
    HeadAt(shorter, a, |shorter| + i);
    HeadAt(longer, b, |shorter| + i);
    if i > 0 { PrefixHasNoBreak(a, i - 1); }
  }

  /** If a shorter base gives the same head, the longer one carries the mark. */
  lemma LongerBaseCarriesMark(shorter: Base, a: Target, longer: Base, b: Target)
    requires |shorter| < |longer| && Head(shorter, a) == Head(longer, b)
    ensures MarkAt(longer, |shorter|)
  {
    BreakInProject(shorter, a, longer, b);
    forall i | 0 <= i < |MARK| ensures longer[|shorter| + i] == MARK[i] {
      MarkUnit(shorter, a, longer, b, i);
    }
  }

  /** Two uploads share a key only if they are the same upload, as long as neither base
      carries the mark. */
  lemma KeyIsUnique(base1: Base, t1: Target, c1: Digest, n1: nat, base2: Base, t2: Target, c2: Digest, n2: nat)
    requires !Ambiguous(base1) && !Ambiguous(base2)
    requires StateKey(base1, t1, c1, n1) == StateKey(base2, t2, c2, n2)
    ensures base1 == base2 && t1 == t2 && c1 == c2 && n1 == n2
  {
    assert Head(base1, t1) == Head(base2, t2);
    if |base1| < |base2| {
      LongerBaseCarriesMark(base1, t1, base2, t2);
      assert false;
    } else if |base2| < |base1| {
      LongerBaseCarriesMark(base2, t2, base1, t1);
      assert false;
    } else {
      var head := Head(base1, t1);
      assert base1 == head[..|base1|] && base2 == head[..|base1|];
      assert Where(t1) == head[|base1| + 1..] && Where(t2) == head[|base1| + 1..];
      WhereInjective(t1, t2);
    }
  }

  /** The exact condition: a base shares keys with some shorter base just when it is ambiguous,
      and then it does so for every target. */
  lemma KeyClashesExactly(base: Base)
    ensures Ambiguous(base)
       <==> exists other: Base, t: Target, u: Target :: |other| < |base| && Head(base, t) == Head(other, u)
    ensures Ambiguous(base)
       ==> forall t: Target :: exists other: Base, u: Target :: |other| < |base| && Head(base, t) == Head(other, u)
  {
    if Ambiguous(base) {
      forall t: Target
        ensures exists other: Base, u: Target :: |other| < |base| && Head(base, t) == Head(other, u)
      {
        var other, u := ClashingUpload(base, t);
      }
      var other, u := ClashingUpload(base, Scoped(File));
    }
    if other: Base, t: Target, u: Target :| |other| < |base| && Head(base, t) == Head(other, u) {
      LongerBaseCarriesMark(other, u, base, t);
    }
  }

  lemma Regroup(a: string, b: string, c: string, d: string, e: string)
    ensures (a + (b + c) + d) + e == a + b + (c + (d + e))
  {
  }

  lemma BaseParts(base: Base, i: nat)
    requires i < |base| && MarkAt(base, i)
    ensures base == base[..i] + ("\n" + "project:") + base[i + |MARK|..]
  {
    assert MARK == "\n" + "project:";
  }

  lemma HeadParts(base: Base, t: Target)
    ensures Head(base, t) == base + ("\n" + Where(t))
  {
  }

  /** The upload that shares a key with `t` at an ambiguous base. */
  lemma ClashingUpload(base: Base, t: Target) returns (other: Base, u: Target)
    requires Ambiguous(base)
    ensures |other| < |base| && Head(base, t) == Head(other, u)
  {
    var i: nat :| i < |base| && MarkAt(base, i);
    other := base[..i];
    var rest := base[i + |MARK|..];
    u := Project(rest + ("\n" + Where(t)));
    BaseParts(base, i);
    HeadParts(base, t);
    Regroup(other, "\n", "project:", rest, "\n" + Where(t));
  }
}
