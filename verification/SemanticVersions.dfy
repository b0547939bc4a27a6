/** Precedence of version numbers (Semantic Versioning 2.0.0, section 11). */
module SemanticVersions {

  /** A part of a pre-release tag. */
  datatype Identifier = Numeric(n: nat) | Alpha(s: string)

  /** The precedence of a version; build metadata do not count. */
  datatype Version = Version(major: nat, minor: nat, patch: nat, pre: seq<Identifier>)

  predicate TextLess(a: string, b: string) {
    b != "" && (a == "" || a[0] < b[0] || (a[0] == b[0] && TextLess(a[1..], b[1..])))
  }

  /** Numbers come before words. */
  predicate IdLess(a: Identifier, b: Identifier) {
    match a
    case Numeric(n) => b.Alpha? || n < b.n
    case Alpha(s) => b.Alpha? && TextLess(s, b.s)
  }

  predicate TagLess(a: seq<Identifier>, b: seq<Identifier>) {
    b != [] && (a == [] || IdLess(a[0], b[0]) || (a[0] == b[0] && TagLess(a[1..], b[1..])))
  }

  /** A version without a tag comes after those with one. */
  predicate PreLess(a: seq<Identifier>, b: seq<Identifier>) { a != [] && (b == [] || TagLess(a, b)) }

  predicate Less(a: Version, b: Version) {
    || a.major < b.major
    || (a.major == b.major && a.minor < b.minor)
    || (a.major == b.major && a.minor == b.minor && a.patch < b.patch)
    || (a.major == b.major && a.minor == b.minor && a.patch == b.patch && PreLess(a.pre, b.pre))
  }

  // ---- It is a total order ---------------------------------------------------------------

  lemma {:induction false} TextOrder(a: string, b: string, c: string)
    ensures TextLess(a, b) || TextLess(b, a) || a == b
    ensures !TextLess(a, a)
    ensures TextLess(a, b) && TextLess(b, c) ==> TextLess(a, c)
  {
    if a != "" {
      TextOrder(a[1..], if b == "" then "" else b[1..], if c == "" then "" else c[1..]);
      if b != "" && a[0] == b[0] && a[1..] == b[1..] { assert a == [a[0]] + a[1..] == b; }
    }
  }

  lemma IdOrder(a: Identifier, b: Identifier, c: Identifier)
    ensures IdLess(a, b) || IdLess(b, a) || a == b
    ensures !IdLess(a, a)
    ensures IdLess(a, b) && IdLess(b, c) ==> IdLess(a, c)
  {
    if a.Alpha? { TextOrder(a.s, if b.Alpha? then b.s else "", if c.Alpha? then c.s else ""); }
  }

  lemma {:induction false} TagOrder(a: seq<Identifier>, b: seq<Identifier>, c: seq<Identifier>)
    ensures TagLess(a, b) || TagLess(b, a) || a == b
    ensures !TagLess(a, a)
    ensures TagLess(a, b) && TagLess(b, c) ==> TagLess(a, c)
  {
    if a != [] {
      IdOrder(a[0], if b == [] then a[0] else b[0], if c == [] then a[0] else c[0]);
      TagOrder(a[1..], if b == [] then [] else b[1..], if c == [] then [] else c[1..]);
      if b != [] && a[0] == b[0] && a[1..] == b[1..] { assert a == [a[0]] + a[1..] == b; }
    }
  }

  /** Any two versions are equal or compare exactly one way, and the comparison is transitive. */
  lemma VersionOrder(a: Version, b: Version, c: Version)
    ensures Less(a, b) || Less(b, a) || a == b
    ensures a == b ==> !Less(a, b)
    ensures Less(a, b) ==> !Less(b, a)
    ensures Less(a, b) && Less(b, c) ==> Less(a, c)
  {
    TagOrder(a.pre, b.pre, c.pre);
    TagOrder(a.pre, b.pre, a.pre);
  }

  // ---- What it compares ------------------------------------------------------------------

  function Numbers(v: Version): (r: seq<nat>)
    ensures |r| == 3
  { [v.major, v.minor, v.patch] }

  /** Texts are compared at the first character that differs; a proper prefix is smaller. */
  predicate TextPrecedes(a: string, b: string) {
    (|a| < |b| && a == b[..|a|])
    || exists k: nat :: k < |a| && k < |b| && a[..k] == b[..k] && a[k] < b[k]
  }

  /** Numbers are compared by value and are smaller than words; words are compared as texts. */
  predicate IdPrecedes(a: Identifier, b: Identifier) {
    || (a.Numeric? && b.Numeric? && a.n < b.n)
    || (a.Numeric? && b.Alpha?)
    || (a.Alpha? && b.Alpha? && TextPrecedes(a.s, b.s))
  }

  /** Tags are compared at the first identifier that differs; a proper prefix is smaller. */
  predicate TagPrecedes(a: seq<Identifier>, b: seq<Identifier>) {
    (|a| < |b| && a == b[..|a|])
    || exists k: nat :: k < |a| && k < |b| && a[..k] == b[..k] && IdPrecedes(a[k], b[k])
  }

  predicate NumbersPrecede(a: seq<nat>, b: seq<nat>) {
    exists k: nat :: k < |a| && k < |b| && a[..k] == b[..k] && a[k] < b[k]
  }

  /** The first of major, minor and patch that differs decides; with equal numbers a release beats
      every pre-release, and two pre-releases compare by their tags. */
  predicate Precedes(a: Version, b: Version) {
    || NumbersPrecede(Numbers(a), Numbers(b))
    || (Numbers(a) == Numbers(b) && a.pre != [] && (b.pre == [] || TagPrecedes(a.pre, b.pre)))
  }

  lemma {:induction false} TextLessMeans(a: string, b: string)
    ensures TextLess(a, b) <==> TextPrecedes(a, b)
  {
    if a != "" && b != "" {
      TextLessMeans(a[1..], b[1..]);
      if a[0] < b[0] {
        assert a[..0] == b[..0] && a[0] < b[0];
      } else if a[0] == b[0] && TextPrecedes(a[1..], b[1..]) {
        if |a| < |b| && a[1..] == b[1..][..|a| - 1] {
          assert a == [a[0]] + a[1..] == b[..|a|];
        } else {
          var k: nat :| k < |a| - 1 && k < |b| - 1 && a[1..][..k] == b[1..][..k] && a[1..][k] < b[1..][k];
          assert a[..k + 1] == [a[0]] + a[1..][..k] == b[..k + 1];
        }
      }
      if TextPrecedes(a, b) {
        if |a| < |b| && a == b[..|a|] {
          assert a[1..] == b[1..][..|a| - 1] && a[0] == b[0];
        } else {
          var k: nat :| k < |a| && k < |b| && a[..k] == b[..k] && a[k] < b[k];
          if k > 0 {
            assert a[0] == a[..k][0] == b[..k][0] == b[0];
            assert a[1..][..k - 1] == a[..k][1..] == b[1..][..k - 1];
            assert a[1..][k - 1] < b[1..][k - 1];
          }
        }
      }
    }
  }

  lemma IdLessMeans(a: Identifier, b: Identifier)
    ensures IdLess(a, b) <==> IdPrecedes(a, b)
  {
    if a.Alpha? && b.Alpha? { TextLessMeans(a.s, b.s); }
  }

  lemma {:induction false} TagLessMeans(a: seq<Identifier>, b: seq<Identifier>)
    ensures TagLess(a, b) <==> TagPrecedes(a, b)
  {
    if a != [] && b != [] {
      TagLessMeans(a[1..], b[1..]);
      IdLessMeans(a[0], b[0]);
      if IdLess(a[0], b[0]) {
        assert a[..0] == b[..0] && IdPrecedes(a[0], b[0]);
      } else if a[0] == b[0] && TagPrecedes(a[1..], b[1..]) {
        if |a| < |b| && a[1..] == b[1..][..|a| - 1] {
          assert a == [a[0]] + a[1..] == b[..|a|];
        } else {
          var k: nat :| k < |a| - 1 && k < |b| - 1 && a[1..][..k] == b[1..][..k] && IdPrecedes(a[1..][k], b[1..][k]);
          assert a[..k + 1] == [a[0]] + a[1..][..k] == b[..k + 1];
        }
      }
      if TagPrecedes(a, b) {
        if |a| < |b| && a == b[..|a|] {
          assert a[1..] == b[1..][..|a| - 1] && a[0] == b[0];
        } else {
          var k: nat :| k < |a| && k < |b| && a[..k] == b[..k] && IdPrecedes(a[k], b[k]);
          if k > 0 {
            assert a[0] == a[..k][0] == b[..k][0] == b[0];
            assert a[1..][..k - 1] == a[..k][1..] == b[1..][..k - 1];
            assert IdPrecedes(a[1..][k - 1], b[1..][k - 1]);
          }
        }
      }
    }
  }

  lemma NumbersMeaning(a: Version, b: Version)
    ensures NumbersPrecede(Numbers(a), Numbers(b))
       <==> || a.major < b.major
            || (a.major == b.major && (a.minor < b.minor || (a.minor == b.minor && a.patch < b.patch)))
  {
    var m, n := Numbers(a), Numbers(b);
    assert m[..0] == n[..0];
    assert m[..1] == [a.major] && n[..1] == [b.major];
    assert m[..2] == [a.major, a.minor] && n[..2] == [b.major, b.minor];
  }

  /** The comparison is precedence as Semantic Versioning defines it. */
  lemma LessMeansPrecedes(a: Version, b: Version)
    ensures Less(a, b) <==> Precedes(a, b)
  {
    NumbersMeaning(a, b);
    TagLessMeans(a.pre, b.pre);
    assert Numbers(a) == Numbers(b) <==> a.major == b.major && a.minor == b.minor && a.patch == b.patch by {
      assert Numbers(a)[0] == a.major && Numbers(a)[1] == a.minor && Numbers(a)[2] == a.patch;
      assert Numbers(b)[0] == b.major && Numbers(b)[1] == b.minor && Numbers(b)[2] == b.patch;
    }
  }
}
