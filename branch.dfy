/**
 * Branch names such as "14.0" and their numeric reading, as
 * `tuple(map(int, branch.split('.')))` computes it, together with Python's
 * lexicographic ordering of tuples (tools/main_branch_bot.py, line 18-19).
 */
module Branch {
  import opened Wrappers

  predicate IsDigit(c: char) { '0' <= c <= '9' }

  predicate AllDigits(s: string) { forall i :: 0 <= i < |s| ==> IsDigit(s[i]) }

  // ---------------------------------------------------------------------
  // str.split and its inverse str.join

  /** Python's `s.split(sep)`: the pieces between separators, never an empty list. */
  function Split(s: string, sep: char): (parts: seq<string>)
    ensures |parts| >= 1
    ensures forall k :: 0 <= k < |parts| ==> sep !in parts[k]
  {
    if s == [] then [[]]
    else
      var rest := Split(s[1..], sep);
      if s[0] == sep then [[]] + rest
      else [[s[0]] + rest[0]] + rest[1..]
  }

  /** Python's `sep.join(parts)`. */
  function Join(parts: seq<string>, sep: char): string
    requires |parts| >= 1
  {
    if |parts| == 1 then parts[0] else parts[0] + [sep] + Join(parts[1..], sep)
  }

  /** Joining the pieces of a split gives back the string. */
  lemma {:induction false} JoinSplit(s: string, sep: char)
    ensures Join(Split(s, sep), sep) == s
  {
    if s != [] {
      var rest := Split(s[1..], sep);
      JoinSplit(s[1..], sep);
      if s[0] == sep {
        assert ([[]] + rest)[1..] == rest;
      } else if |rest| > 1 {
        assert ([[s[0]] + rest[0]] + rest[1..])[1..] == rest[1..];
        assert Join(rest, sep) == rest[0] + [sep] + Join(rest[1..], sep);
        assert s == [s[0]] + s[1..];
      }
    }
  }

  /** A string without the separator splits into itself alone. */
  lemma {:induction false} SplitWithoutSep(p: string, sep: char)
    requires sep !in p
    ensures Split(p, sep) == [p]
  {
    if p != [] {
      SplitWithoutSep(p[1..], sep);
      assert [p[0]] + p[1..] == p;
    }
  }

  /** The first piece ends at the first separator. */
  lemma {:induction false} SplitAtSep(p: string, sep: char, rest: string)
    requires sep !in p
    ensures Split(p + [sep] + rest, sep) == [p] + Split(rest, sep)
  {
    var s := p + [sep] + rest;
    if p == [] {
      assert s[1..] == rest;
    } else {
      assert s[1..] == p[1..] + [sep] + rest;
      SplitAtSep(p[1..], sep, rest);
      assert [p[0]] + p[1..] == p;
    }
  }

  /** Splitting a join of separator-free pieces gives back the pieces. */
  lemma {:induction false} SplitJoin(parts: seq<string>, sep: char)
    requires |parts| >= 1
    requires forall k :: 0 <= k < |parts| ==> sep !in parts[k]
    ensures Split(Join(parts, sep), sep) == parts
  {
    if |parts| == 1 {
      SplitWithoutSep(parts[0], sep);
    } else {
      SplitJoin(parts[1..], sep);
      SplitAtSep(parts[0], sep, Join(parts[1..], sep));
      assert [parts[0]] + parts[1..] == parts;
    }
  }

  // ---------------------------------------------------------------------
  // int() on a component, restricted to non-empty ASCII digit strings

  function DigitValue(c: char): (d: nat)
    requires IsDigit(c)
    ensures d < 10
  {
    (c as int) - ('0' as int)
  }

  function DigitChar(d: nat): (c: char)
    requires d < 10
    ensures IsDigit(c) && DigitValue(c) == d
  {
    ('0' as int + d) as char
  }

  /** `10` to the power `n`. */
  function Pow10(n: nat): (p: nat)
    ensures p >= 1
  {
    if n == 0 then 1 else 10 * Pow10(n - 1)
  }

  /** The decimal value of a digit string, read most significant digit first; `k` digits stay below `10^k`. */
  function DigitsValue(s: string): (v: nat)
    requires AllDigits(s)
    ensures v < Pow10(|s|)
  {
    if s == [] then 0 else DigitsValue(s[..|s| - 1]) * 10 + DigitValue(s[|s| - 1])
  }

  /** The shortest decimal spelling of `n`, as Python's `str(n)`. */
  function Decimal(n: nat): (s: string)
    ensures s != [] && AllDigits(s)
  {
    if n < 10 then [DigitChar(n)] else Decimal(n / 10) + [DigitChar(n % 10)]
  }

  /** `int(str(n)) == n` for every natural number. */
  lemma {:induction false} DecimalValue(n: nat)
    ensures DigitsValue(Decimal(n)) == n
  {
    var s := Decimal(n);
    if n >= 10 {
      DecimalValue(n / 10);
      assert s[..|s| - 1] == Decimal(n / 10);
    }
  }

  /** `int(p)` on the domain modelled: `None` when `p` is empty or holds a non-digit. */
  function ParseInt(p: string): (r: Option<nat>)
    ensures r.Some? <==> p != [] && AllDigits(p)
  {
    if p != [] && AllDigits(p) then Some(DigitsValue(p)) else None
  }

  /** `map(int, parts)`, raising (None) at the first component int() rejects. */
  function ParseAll(parts: seq<string>): (r: Option<seq<nat>>)
    ensures r.Some? ==> |r.value| == |parts|
    ensures r.Some? <==> forall k :: 0 <= k < |parts| ==> ParseInt(parts[k]).Some?
    ensures r.Some? ==> forall k :: 0 <= k < |parts| ==> Some(r.value[k]) == ParseInt(parts[k])
  {
    if parts == [] then Some([])
    else
      var head, tail := ParseInt(parts[0]), ParseAll(parts[1..]);
      if head.Some? && tail.Some? then Some([head.value] + tail.value) else None
  }

  /** `tuple(map(int, branch.split('.')))`; None where Python raises ValueError. */
  function ParseBranch(branch: string): (r: Option<seq<nat>>)
    ensures r.Some? <==> WellFormedBranch(branch)
    ensures r.Some? ==> |r.value| >= 1
  {
    ParseBranchDefined(branch);
    ParseAll(Split(branch, '.'))
  }

  /** The branch names int() accepts piece by piece: digit groups separated by single dots. */
  predicate WellFormedBranch(s: string)
  {
    s != [] && IsDigit(s[0]) && IsDigit(s[|s| - 1]) && DotsAndDigits(s)
  }

  /** Every character is a digit or a dot, and no dot follows a dot. */
  predicate DotsAndDigits(s: string)
  {
    (forall i :: 0 <= i < |s| ==> IsDigit(s[i]) || s[i] == '.') &&
    (forall i :: 0 <= i < |s| - 1 ==> s[i] == '.' ==> s[i + 1] != '.')
  }

  /** All pieces are digit strings, and all but the first are non-empty. */
  predicate DigitPieces(parts: seq<string>)
    requires |parts| >= 1
  {
    AllDigits(parts[0]) && forall k :: 1 <= k < |parts| ==> parts[k] != [] && AllDigits(parts[k])
  }

  /** How the shape of a string shows in the pieces it splits into. */
  lemma {:induction false} SplitShape(s: string)
    ensures DigitPieces(Split(s, '.')) <==> DotsAndDigits(s) && (s != [] ==> s[|s| - 1] != '.')
    ensures Split(s, '.')[0] == [] <==> s == [] || s[0] == '.'
  {
    if s != [] {
      SplitShape(s[1..]);
      if s[0] == '.' {
        SplitShapeDot(s);
      } else {
        SplitShapeOther(s);
      }
    }
  }

  /** SplitShape for a string that starts with a dot, given it for the rest. */
  lemma SplitShapeDot(s: string)
    requires s != [] && s[0] == '.'
    requires var t := s[1..];
      (DigitPieces(Split(t, '.')) <==> DotsAndDigits(t) && (t != [] ==> t[|t| - 1] != '.')) &&
      (Split(t, '.')[0] == [] <==> t == [] || t[0] == '.')
    ensures DigitPieces(Split(s, '.')) <==> DotsAndDigits(s) && s[|s| - 1] != '.'
  {
    var t := s[1..];
    var rest := Split(t, '.');
    var parts := Split(s, '.');
    assert parts == [[]] + rest;
    assert forall i :: 1 <= i < |s| ==> s[i] == t[i - 1];
    if DigitPieces(parts) {
      assert forall k :: 0 <= k < |rest| ==> rest[k] == parts[k + 1];
    }
    if DotsAndDigits(s) && s[|s| - 1] != '.' {
      assert t != [] && t[0] != '.';
      assert DigitPieces(rest);
    }
  }

  /** SplitShape for a string that starts with another character, given it for the rest. */
  lemma SplitShapeOther(s: string)
    requires s != [] && s[0] != '.'
    requires var t := s[1..];
      (DigitPieces(Split(t, '.')) <==> DotsAndDigits(t) && (t != [] ==> t[|t| - 1] != '.'))
    ensures DigitPieces(Split(s, '.')) <==> DotsAndDigits(s) && s[|s| - 1] != '.'
  {
    PiecesAfterChar(s);
    ShapeAfterChar(s);
  }

  /** A leading character other than a dot joins the first piece. */
  lemma PiecesAfterChar(s: string)
    requires s != [] && s[0] != '.'
    ensures DigitPieces(Split(s, '.')) <==> IsDigit(s[0]) && DigitPieces(Split(s[1..], '.'))
  {
    var rest := Split(s[1..], '.');
    var parts := Split(s, '.');
    assert parts == [[s[0]] + rest[0]] + rest[1..];
    PiecesWithHead(s[0], rest, parts);
  }

  lemma PiecesWithHead(c: char, rest: seq<string>, parts: seq<string>)
    requires |rest| >= 1 && parts == [[c] + rest[0]] + rest[1..]
    ensures DigitPieces(parts) <==> IsDigit(c) && DigitPieces(rest)
  {
    assert forall k :: 1 <= k < |parts| ==> parts[k] == rest[k];
    var head := [c] + rest[0];
    assert head[0] == c;
    assert forall i :: 0 <= i < |rest[0]| ==> head[i + 1] == rest[0][i];
    if AllDigits(head) {
      assert forall i :: 0 <= i < |rest[0]| ==> IsDigit(rest[0][i]);
    }
  }

  /** A leading character other than a dot adds no dot-dot and leaves the last character alone. */
  lemma ShapeAfterChar(s: string)
    requires s != [] && s[0] != '.'
    ensures var t := s[1..];
      (DotsAndDigits(s) && s[|s| - 1] != '.') <==>
      (IsDigit(s[0]) && DotsAndDigits(t) && (t != [] ==> t[|t| - 1] != '.'))
  {
    var t := s[1..];
    assert forall i :: 1 <= i < |s| ==> s[i] == t[i - 1];
  }

  /** Python raises for exactly the branch names that are not dot-separated digit groups. */
  lemma ParseBranchDefined(branch: string)
    ensures ParseAll(Split(branch, '.')).Some? <==> WellFormedBranch(branch)
  {
    var parts := Split(branch, '.');
    SplitShape(branch);
    if ParseAll(parts).Some? {
      assert ParseInt(parts[0]).Some?;
      assert DigitPieces(parts);
    }
    if WellFormedBranch(branch) {
      forall k | 0 <= k < |parts| ensures ParseInt(parts[k]).Some? {
        if k == 0 { assert parts[0] != []; }
      }
    }
  }

  /** The version read from a name of two digit groups. */
  lemma ParseTwoPieces(a: string, b: string)
    requires a != [] && AllDigits(a) && b != [] && AllDigits(b)
    ensures ParseBranch(a + "." + b) == Some([DigitsValue(a), DigitsValue(b)])
  {
    DigitsHaveNoDot(a);
    DigitsHaveNoDot(b);
    SplitJoin([a, b], '.');
    assert Join([a, b], '.') == a + "." + b by { assert [a, b][1..] == [b]; }
    var r := ParseAll([a, b]);
    assert ParseInt([a, b][0]) == Some(DigitsValue(a));
    assert ParseInt([a, b][1]) == Some(DigitsValue(b));
    assert r.value == [DigitsValue(a), DigitsValue(b)];
  }

  /** A digit string holds no dot. */
  lemma DigitsHaveNoDot(a: string)
    requires AllDigits(a)
    ensures '.' !in a
  {
  }

  /** The canonical branch name of a version tuple, e.g. [14, 0] to "14.0". */
  function FormatBranch(v: seq<nat>): (s: string)
    requires |v| >= 1
  {
    Join(seq(|v|, k requires 0 <= k < |v| => Decimal(v[k])), '.')
  }

  /** Reading a formatted version gives back the version. */
  lemma FormatParse(v: seq<nat>)
    requires |v| >= 1
    ensures ParseBranch(FormatBranch(v)) == Some(v)
  {
    var parts := seq(|v|, k requires 0 <= k < |v| => Decimal(v[k]));
    forall k | 0 <= k < |parts| ensures '.' !in parts[k] && ParseInt(parts[k]) == Some(v[k]) {
      DecimalValue(v[k]);
    }
    SplitJoin(parts, '.');
    var r := ParseAll(parts);
    assert r.value == v;
  }

  // ---------------------------------------------------------------------
  // Python's ordering of tuples of integers

  /** `a < b` on Python tuples: the first differing component decides, and a proper prefix is smaller. */
  predicate TupleLess(a: seq<int>, b: seq<int>)
    ensures TupleLess(a, b) ==> a != b
  {
    if a == [] then b != []
    else if b == [] then false
    else if a[0] != b[0] then a[0] < b[0]
    else TupleLess(a[1..], b[1..])
  }

  /** `a` and `b` agree on their first `k` components and `a` is smaller at `k` or ends there while `b` goes on. */
  predicate LessAt(a: seq<int>, b: seq<int>, k: nat)
  {
    k <= |a| && k < |b| && a[..k] == b[..k] && (k == |a| || a[k] < b[k])
  }

  /** The recursive comparison agrees with the textbook definition of lexicographic order. */
  lemma {:induction false} TupleLessIff(a: seq<int>, b: seq<int>)
    ensures TupleLess(a, b) <==> exists k: nat :: LessAt(a, b, k)
  {
    if a == [] {
      if b != [] { assert LessAt(a, b, 0); }
    } else if b == [] {
    } else if a[0] != b[0] {
      if a[0] < b[0] { assert LessAt(a, b, 0); }
    } else {
      TupleLessIff(a[1..], b[1..]);
      if TupleLess(a, b) {
        var k: nat :| LessAt(a[1..], b[1..], k);
        assert a[..k + 1] == [a[0]] + a[1..][..k];
        assert b[..k + 1] == [b[0]] + b[1..][..k];
        assert LessAt(a, b, k + 1);
      }
      forall k: nat | LessAt(a, b, k) ensures TupleLess(a, b) {
        if k > 0 {
          assert a[1..][..k - 1] == a[..k][1..];
          assert b[1..][..k - 1] == b[..k][1..];
          assert LessAt(a[1..], b[1..], k - 1);
        }
      }
    }
  }

  /** Tuple order is irreflexive. */
  lemma {:induction false} TupleLessIrreflexive(a: seq<int>)
    ensures !TupleLess(a, a)
  {
    if a != [] { TupleLessIrreflexive(a[1..]); }
  }

  /** Tuple order is transitive. */
  lemma {:induction false} TupleLessTransitive(a: seq<int>, b: seq<int>, c: seq<int>)
    requires TupleLess(a, b) && TupleLess(b, c)
    ensures TupleLess(a, c)
  {
    if a != [] && a[0] == b[0] && b[0] == c[0] {
      TupleLessTransitive(a[1..], b[1..], c[1..]);
    }
  }

  /** Tuple order is total: two different tuples are comparable. */
  lemma {:induction false} TupleLessTotal(a: seq<int>, b: seq<int>)
    requires a != b
    ensures TupleLess(a, b) || TupleLess(b, a)
  {
    if a != [] && b != [] && a[0] == b[0] {
      assert a == [a[0]] + a[1..] && b == [b[0]] + b[1..];
      TupleLessTotal(a[1..], b[1..]);
    }
  }
}
