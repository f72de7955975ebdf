/**
 * The order of plugin versions (internal/plugins/compatibility.go and catalog.go). Parsing is the semver
 * library's; its comparison is taken to be the precedence of section 11 of Semantic Versioning 2.0.0, and
 * everything here holds for whatever set of strings the parser accepts.
 */
module VersionOrder {
  import opened Options

  // ---- strings -------------------------------------------------------------------------------

  /** Code point order, which is what comparing the UTF-8 octets gives. */
  predicate StringBefore(a: string, b: string) {
    b != [] && (a == [] || a[0] < b[0] || (a[0] == b[0] && StringBefore(a[1..], b[1..])))
  }

  lemma {:induction false} StringIrreflexive(a: string)
    ensures !StringBefore(a, a)
  {
    if a != [] {
      StringIrreflexive(a[1..]);
    }
  }

  lemma {:induction false} StringTransitive(a: string, b: string, c: string)
    requires StringBefore(a, b) && StringBefore(b, c)
    ensures StringBefore(a, c)
  {
    if a != [] && a[0] == b[0] == c[0] {
      StringTransitive(a[1..], b[1..], c[1..]);
    }
  }

  lemma {:induction false} StringTotal(a: string, b: string)
    requires a != b
    ensures StringBefore(a, b) || StringBefore(b, a)
  {
    if a != [] && b != [] && a[0] == b[0] {
      assert a == [a[0]] + a[1..] && b == [b[0]] + b[1..];
      StringTotal(a[1..], b[1..]);
    }
  }

  /** strings.Compare. */
  function StringOrder(a: string, b: string): int {
    if a == b then 0 else if StringBefore(a, b) then -1 else 1
  }

  // ---- precedence ----------------------------------------------------------------------------

  datatype Ident = Num(n: nat) | Alpha(s: string)

  /** A parsed version; build metadata takes no part in precedence, so it is not kept. */
  datatype Version = Version(major: nat, minor: nat, patch: nat, pre: seq<Ident>)

  function NumberOrder(a: int, b: int): int {
    if a < b then -1 else if a == b then 0 else 1
  }

  function IdentOrder(a: Ident, b: Ident): int {
    match (a, b)
    case (Num(m), Num(n)) => NumberOrder(m, n)
    case (Num(_), Alpha(_)) => -1
    case (Alpha(_), Num(_)) => 1
    case (Alpha(s), Alpha(t)) => StringOrder(s, t)
  }

  /** Field by field; when all fields of the shorter list are equal, the longer one is higher. */
  function PreOrder(a: seq<Ident>, b: seq<Ident>): int {
    if a == [] then (if b == [] then 0 else -1)
    else if b == [] then 1
    else if IdentOrder(a[0], b[0]) != 0 then IdentOrder(a[0], b[0])
    else PreOrder(a[1..], b[1..])
  }

  /** Precedence; a version without pre-release fields is above the same version with some. */
  function Precedence(a: Version, b: Version): int {
    if a.major != b.major then NumberOrder(a.major, b.major)
    else if a.minor != b.minor then NumberOrder(a.minor, b.minor)
    else if a.patch != b.patch then NumberOrder(a.patch, b.patch)
    else if a.pre == b.pre then 0
    else if a.pre == [] then 1
    else if b.pre == [] then -1
    else PreOrder(a.pre, b.pre)
  }

  // ---- what the standard says ----------------------------------------------------------------

  lemma FirstEqual<T>(a: seq<T>, b: seq<T>, i: nat)
    requires a != [] && b != [] && i <= |a| && i <= |b| && a[..i] == b[..i]
    ensures i > 0 ==> a[0] == b[0]
  {
    if i > 0 {
      assert a[..i][0] == b[..i][0];
    }
  }

  /** The first difference decides: a smaller code point, or the end of the shorter string. */
  lemma {:induction false} StringBeforeIff(a: string, b: string)
    ensures StringBefore(a, b) <==>
      exists i :: 0 <= i <= |a| && i < |b| && a[..i] == b[..i] && (i == |a| || a[i] < b[i])
  {
    if b != [] && (a == [] || a[0] < b[0]) {
      assert a[..0] == b[..0];
    } else if b != [] && a[0] == b[0] {
      StringBeforeIff(a[1..], b[1..]);
      if StringBefore(a, b) {
        var i :| 0 <= i <= |a| - 1 && i < |b| - 1 && a[1..][..i] == b[1..][..i] && (i == |a| - 1 || a[1..][i] < b[1..][i]);
        assert a[..i + 1] == [a[0]] + a[1..][..i] && b[..i + 1] == [b[0]] + b[1..][..i];
      }
      forall i | 0 <= i <= |a| && i < |b| && a[..i] == b[..i] && (i == |a| || a[i] < b[i])
        ensures StringBefore(a, b)
      {
        assert i > 0;
        assert a[1..][..i - 1] == a[..i][1..] && b[1..][..i - 1] == b[..i][1..];
      }
    } else {
      forall i | 0 <= i <= |a| && i < |b| && a[..i] == b[..i]
        ensures !(i == |a| || a[i] < b[i])
      {
        if a != [] && b != [] { FirstEqual(a, b, i); }
      }
    }
  }

  /** Numbers by value, other identifiers in string order, and numbers before the others. */
  predicate IdentBefore(a: Ident, b: Ident) {
    || (a.Num? && b.Num? && a.n < b.n) || (a.Num? && b.Alpha?)
    || (a.Alpha? && b.Alpha? && StringBefore(a.s, b.s))
  }

  /** Where two lists of identifiers first differ, the one of `a` is lower, or `a` has ended. */
  predicate DiffersAt(a: seq<Ident>, b: seq<Ident>, i: nat) {
    i <= |a| && i < |b| && a[..i] == b[..i] && (i == |a| || IdentBefore(a[i], b[i]))
  }

  lemma IdentOrderIff(a: Ident, b: Ident)
    ensures IdentOrder(a, b) < 0 <==> IdentBefore(a, b)
    ensures IdentOrder(a, b) == 0 <==> a == b
  {
    if a == b && a.Alpha? {
      StringIrreflexive(a.s);
    }
  }

  lemma {:induction false} PreOrderIff(a: seq<Ident>, b: seq<Ident>)
    ensures PreOrder(a, b) < 0 <==> exists i: nat :: DiffersAt(a, b, i)
  {
    hide IdentOrder, IdentBefore;
    if a == [] || b == [] {
      assert b != [] ==> DiffersAt(a, b, 0);
    } else {
      IdentOrderIff(a[0], b[0]);
      IdentOrderIff(a[0], a[0]);
      if a[0] == b[0] {
        PreOrderIff(a[1..], b[1..]);
        if PreOrder(a, b) < 0 {
          var i: nat :| DiffersAt(a[1..], b[1..], i);
          assert a[..i + 1] == [a[0]] + a[1..][..i] && b[..i + 1] == [b[0]] + b[1..][..i];
          assert DiffersAt(a, b, i + 1);
        }
        forall i: nat | DiffersAt(a, b, i)
          ensures PreOrder(a, b) < 0
        {
          assert i > 0;
          assert a[1..][..i - 1] == a[..i][1..] && b[1..][..i - 1] == b[..i][1..];
          assert DiffersAt(a[1..], b[1..], i - 1);
        }
      } else {
        if IdentBefore(a[0], b[0]) {
          assert a[..0] == b[..0] && DiffersAt(a, b, 0);
        }
        forall i: nat | DiffersAt(a, b, i)
          ensures i == 0
        {
          FirstEqual(a, b, i);
        }
      }
    }
  }

  /**
   * Precedence as section 11 of Semantic Versioning 2.0.0 has it: major, minor and patch numbers decide in this
   * order; then a pre-release is lower than the release; then the first identifier that differs decides.
   */
  lemma PrecedenceIff(a: Version, b: Version)
    ensures Precedence(a, b) < 0 <==>
      || a.major < b.major
      || (a.major == b.major && a.minor < b.minor)
      || (a.major == b.major && a.minor == b.minor && a.patch < b.patch)
      || (a.major == b.major && a.minor == b.minor && a.patch == b.patch && a.pre != [] &&
            (b.pre == [] || exists i: nat :: DiffersAt(a.pre, b.pre, i)))
  {
    PreOrderIff(a.pre, b.pre);
    if a.pre == b.pre {
      PreOrderLaws(a.pre, a.pre, a.pre);
    }
    hide PreOrder, DiffersAt;
  }

  lemma StringOrderLaws(a: string, b: string, c: string)
    ensures StringOrder(a, b) == -StringOrder(b, a)
    ensures StringOrder(a, b) <= 0 && StringOrder(b, c) <= 0 ==> StringOrder(a, c) <= 0
  {
    if a != b {
      StringTotal(a, b);
      if StringBefore(a, b) && StringBefore(b, a) {
        StringTransitive(a, b, a);
        StringIrreflexive(a);
      }
    }
    if StringBefore(a, b) && StringBefore(b, c) {
      StringTransitive(a, b, c);
    }
  }

  lemma IdentOrderLaws(a: Ident, b: Ident, c: Ident)
    ensures IdentOrder(a, b) == -IdentOrder(b, a)
    ensures IdentOrder(a, b) == 0 <==> a == b
    ensures IdentOrder(a, b) <= 0 && IdentOrder(b, c) <= 0 ==> IdentOrder(a, c) <= 0
  {
    if a.Alpha? && b.Alpha? {
      StringOrderLaws(a.s, b.s, if c.Alpha? then c.s else []);
    }
  }

  lemma {:induction false} PreOrderLaws(a: seq<Ident>, b: seq<Ident>, c: seq<Ident>)
    ensures PreOrder(a, b) == -PreOrder(b, a)
    ensures PreOrder(a, b) == 0 <==> a == b
    ensures PreOrder(a, b) <= 0 && PreOrder(b, c) <= 0 ==> PreOrder(a, c) <= 0
  {
    hide IdentOrder;
    if a != [] && b != [] {
      IdentOrderLaws(a[0], b[0], if c == [] then a[0] else c[0]);
      assert a == [a[0]] + a[1..] && b == [b[0]] + b[1..];
      if c == [] {
        PreOrderLaws(a[1..], b[1..], []);
      } else {
        IdentOrderLaws(b[0], c[0], a[0]);
        IdentOrderLaws(a[0], c[0], b[0]);
        PreOrderLaws(a[1..], b[1..], c[1..]);
      }
    }
  }

  /** Precedence is a total order on parsed versions. */
  lemma PrecedenceLaws(a: Version, b: Version, c: Version)
    ensures Precedence(a, b) == -Precedence(b, a)
    ensures Precedence(a, b) == 0 <==> a == b
    ensures Precedence(a, b) <= 0 && Precedence(b, c) <= 0 ==> Precedence(a, c) <= 0
  {
    hide PreOrder;
    PreOrderLaws(a.pre, b.pre, c.pre);
  }

  // ---- versions as strings -------------------------------------------------------------------

  type Parser = string -> Option<Version>

  /** Strings that are not versions are compared as strings, and so is a pair with one of them. */
  function CompareVersions(parse: Parser, a: string, b: string): int {
    if parse(a).None? || parse(b).None? then StringOrder(a, b)
    else Precedence(parse(a).value, parse(b).value)
  }

  predicate Before(parse: Parser, a: string, b: string) {
    var n := CompareVersions(parse, a, b);
    n < 0 || (n == 0 && StringBefore(a, b))
  }

  /**
   * On versions, `Before` is a strict total order, and it extends precedence: strings that differ only in
   * build metadata are told apart, all others are ordered as section 11 of the standard says.
   */
  lemma BeforeIsStrictTotal(parse: Parser, a: string, b: string, c: string)
    requires parse(a).Some? && parse(b).Some? && parse(c).Some?
    ensures !Before(parse, a, a)
    ensures a != b ==> Before(parse, a, b) != Before(parse, b, a)
    ensures Before(parse, a, b) && Before(parse, b, c) ==> Before(parse, a, c)
    ensures Precedence(parse(a).value, parse(b).value) < 0 ==> Before(parse, a, b)
    ensures Before(parse, a, b) ==> Precedence(parse(a).value, parse(b).value) <= 0
  {
    hide Precedence;
    PrecedenceLaws(parse(a).value, parse(b).value, parse(c).value);
    PrecedenceLaws(parse(b).value, parse(c).value, parse(a).value);
    PrecedenceLaws(parse(a).value, parse(c).value, parse(b).value);
    PrecedenceLaws(parse(a).value, parse(a).value, parse(a).value);
    StringIrreflexive(a);
    if a != b {
      StringTotal(a, b);
      if StringBefore(a, b) && StringBefore(b, a) {
        StringTransitive(a, b, a);
      }
    }
    if StringBefore(a, b) && StringBefore(b, c) {
      StringTransitive(a, b, c);
    }
  }

  /**
   * With a string that is no version in the company the relation need not even be transitive: a cycle. So
   * nothing may be ordered by it before it was validated.
   */
  lemma MixedStringsCycle(parse: Parser)
    requires parse("9.0.0") == Some(Version(9, 0, 0, [])) && parse("10.0.0") == Some(Version(10, 0, 0, []))
    requires parse("5x") == None
    ensures Before(parse, "9.0.0", "10.0.0") && Before(parse, "10.0.0", "5x") && Before(parse, "5x", "9.0.0")
    ensures !Before(parse, "9.0.0", "5x")
  {
    var nine, ten, five := "9.0.0", "10.0.0", "5x";
    assert nine[0] == '9' && ten[0] == '1' && five[0] == '5';
  }

  /** No string comes before itself, and of two different strings exactly one comes before the other. */
  lemma BeforeIsTotal(parse: Parser, a: string, b: string)
    ensures !Before(parse, a, a)
    ensures a != b ==> Before(parse, a, b) != Before(parse, b, a)
  {
    if parse(a).Some? && parse(b).Some? {
      BeforeIsStrictTotal(parse, a, b, a);
    } else {
      StringOrderLaws(a, b, a);
    }
    if parse(a).Some? {
      BeforeIsStrictTotal(parse, a, a, a);
    } else {
      StringIrreflexive(a);
    }
  }

  ghost predicate TransitiveOn(parse: Parser, s: set<string>) {
    forall x, y, z :: x in s && y in s && z in s && Before(parse, x, y) && Before(parse, y, z) ==> Before(parse, x, z)
  }

  /** Two versions in one order and a string that is none, which lies between them the other way round. */
  predicate Disturbs(parse: Parser, x: string, y: string, z: string) {
    && parse(x).Some? && parse(y).Some? && parse(z).None?
    && Before(parse, x, y) && StringBefore(y, z) && StringBefore(z, x)
  }

  /** A pair with a string that is no version is ordered as strings. */
  lemma BeforeByString(parse: Parser, a: string, b: string)
    requires parse(a).None? || parse(b).None?
    ensures Before(parse, a, b) <==> StringBefore(a, b)
  {
    StringIrreflexive(a);
  }

  /** Any cycle of three is a disturbance, read from the right place. */
  lemma CycleDisturbs(parse: Parser, a: string, b: string, c: string)
    requires Before(parse, a, b) && Before(parse, b, c) && Before(parse, c, a)
    ensures Disturbs(parse, a, b, c) || Disturbs(parse, b, c, a) || Disturbs(parse, c, a, b)
  {
    hide Before, StringBefore;
    if parse(a).Some? && parse(b).Some? && parse(c).Some? {
      BeforeIsStrictTotal(parse, a, b, c);
      BeforeIsTotal(parse, a, c);
    } else if parse(c).None? {
      CycleOfStrings(parse, a, b, c);
    } else if parse(b).None? {
      CycleOfStrings(parse, c, a, b);
    } else {
      CycleOfStrings(parse, b, c, a);
    }
  }

  lemma CycleOfStrings(parse: Parser, a: string, b: string, c: string)
    requires Before(parse, a, b) && Before(parse, b, c) && Before(parse, c, a) && parse(c).None?
    ensures StringBefore(b, c) && StringBefore(c, a) && parse(a).Some? && parse(b).Some?
  {
    hide Before, StringBefore;
    BeforeByString(parse, b, c);
    BeforeByString(parse, c, a);
    StringTransitive(b, c, a);
    if parse(a).None? || parse(b).None? {
      BeforeByString(parse, a, b);
      StringTransitive(a, b, a);
      StringIrreflexive(a);
    }
  }

  /**
   * Exactly when `versionBefore` is transitive on a set of strings, and so a strict total order of it: if
   * no string that is no version lies, as a string, between two versions of the set that precedence puts
   * the other way round.
   */
  lemma TransitiveIff(parse: Parser, s: set<string>)
    ensures TransitiveOn(parse, s) <==>
      !exists x, y, z :: x in s && y in s && z in s && Disturbs(parse, x, y, z)
  {
    hide Before, StringBefore;
    forall x, y, z | x in s && y in s && z in s && Disturbs(parse, x, y, z)
      ensures !TransitiveOn(parse, s)
    {
      BeforeByString(parse, y, z);
      BeforeByString(parse, z, x);
      BeforeIsTotal(parse, x, z);
    }
    if !TransitiveOn(parse, s) {
      var x, y, z :| x in s && y in s && z in s && Before(parse, x, y) && Before(parse, y, z) && !Before(parse, x, z);
      BeforeIsTotal(parse, x, z);
      BeforeIsTotal(parse, x, y);
      assert x != z;
      CycleDisturbs(parse, x, y, z);
    }
  }

  /** No difference in build metadata is ever an update: equal precedence compares as equal. */
  lemma BuildIsNoUpdate(parse: Parser, a: string, b: string)
    requires parse(a).Some? && parse(b).Some?
    ensures CompareVersions(parse, a, b) == 0 <==> parse(a) == parse(b)
  {
    PrecedenceLaws(parse(a).value, parse(b).value, parse(a).value);
  }
}
