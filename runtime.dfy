/**
 * The interpreter used to build wheels for one branch, `_get_python` in
 * tools/main_branch_bot.py (line 17-24). The running interpreter
 * (`sys.version_info[0]`, `sys.executable`) is a parameter.
 */
module Runtime {
  import opened Wrappers
  import opened Branch

  /** The interpreter running the bot: its major version and its executable path. */
  datatype Host = Host(major: int, executable: string)

  /** The first version whose wheels are built with the running interpreter. */
  const FirstPython3Version: seq<int> := [11, 0]

  /** The interpreter chosen for a branch at or after 11.0. */
  function CurrentInterpreter(host: Host): (r: string)
    ensures host.major == 3 ==> r == host.executable
    ensures host.major != 3 ==> r == "python3"
  {
    if host.major == 3 then host.executable else "python3"
  }

  /** A version tuple whose wheels need the legacy interpreter: below (11, 0) in tuple order. */
  predicate NeedsLegacy(v: seq<nat>)
    ensures |v| >= 1 && v[0] < 11 ==> NeedsLegacy(v)
    ensures |v| >= 1 && v[0] > 11 ==> !NeedsLegacy(v)
  {
    TupleLess(v, FirstPython3Version)
  }

  /**
   * `_get_python(branch, python2)`; None where the parse raises ValueError.
   */
  function GetPython(branch: string, python2: string, host: Host): (r: Option<string>)
    ensures r.None? <==> !WellFormedBranch(branch)
  {
    match ParseBranch(branch)
    case None => None
    case Some(v) => Some(if NeedsLegacy(v) then python2 else CurrentInterpreter(host))
  }

  /**
   * For the names a branch can have (at least one component, none negative),
   * below (11, 0) means a major version under 11, or exactly "11" alone:
   * a proper prefix is smaller.
   */
  lemma NeedsLegacyIff(v: seq<nat>)
    requires |v| >= 1
    ensures NeedsLegacy(v) <==> v[0] < 11 || v == [11]
  {
    if v[0] == 11 {
      if |v| == 1 {
        assert v == [11] && v[1..] == [];
        assert TupleLess(v, [11, 0]) == TupleLess([], [0]);
      }
      if |v| > 1 {
        assert v != [11];
        assert NeedsLegacy(v) == TupleLess(v[1..], [0]);
        assert !TupleLess(v[1..], [0]) by {
          assert v[1..][0] == v[1] >= 0;
          if v[1] == 0 { assert TupleLess(v[1..], [0]) == TupleLess(v[2..], []); }
        }
      }
    }
  }

  /** The legacy interpreter is chosen exactly for branches below (11, 0); the rest get the running one. */
  lemma GetPythonChoice(branch: string, python2: string, host: Host)
    requires WellFormedBranch(branch)
    ensures var v := ParseBranch(branch).value;
      GetPython(branch, python2, host) ==
        Some(if v[0] < 11 || v == [11] then python2 else CurrentInterpreter(host))
  {
    NeedsLegacyIff(ParseBranch(branch).value);
  }

  /** Past (11, 0) the choice does not depend on the branch or on the legacy interpreter given. */
  lemma ModernBranchIgnoresLegacy(b1: string, b2: string, p1: string, p2: string, host: Host)
    requires WellFormedBranch(b1) && WellFormedBranch(b2)
    requires !NeedsLegacy(ParseBranch(b1).value) && !NeedsLegacy(ParseBranch(b2).value)
    ensures GetPython(b1, p1, host) == GetPython(b2, p2, host) == Some(CurrentInterpreter(host))
  {
  }

  /** "8.0" builds with the legacy interpreter. */
  lemma LegacyEight(python2: string, host: Host)
    ensures GetPython("8.0", python2, host) == Some(python2)
  {
    ParseTwoPieces("8", "0");
    assert "8" + "." + "0" == "8.0";
  }

  /** "10.0" and "10.99" build with the legacy interpreter: the minor version does not carry into the major one. */
  lemma LegacyTen(python2: string, host: Host)
    ensures GetPython("10.0", python2, host) == Some(python2)
    ensures GetPython("10.99", python2, host) == Some(python2)
  {
    assert DigitsValue("10") == 10 by { assert "10"[..1] == "1"; }
    ParseTwoPieces("10", "0");
    assert "10" + "." + "0" == "10.0";
    ParseTwoPieces("10", "99");
    assert "10" + "." + "99" == "10.99";
  }

  /** "11" alone builds with the legacy interpreter: (11,) is a proper prefix of (11, 0). */
  lemma LegacyEleven(python2: string, host: Host)
    ensures GetPython("11", python2, host) == Some(python2)
  {
    SplitWithoutSep("11", '.');
    assert DigitsValue("11") == 11 by { assert "11"[..1] == "1"; }
    assert ParseAll(["11"]) == Some([11]) by {
      assert ["11"][1..] == [] && ParseAll([]) == Some([]);
      var x: seq<nat> := [11];
      assert x + [] == x;
    }
  }

  /** "11.0" and "12.0" build with the running interpreter. */
  lemma ModernExamples(python2: string, host: Host)
    ensures GetPython("11.0", python2, host) == Some(CurrentInterpreter(host))
    ensures GetPython("12.0", python2, host) == Some(CurrentInterpreter(host))
  {
    ParseTwoPieces("11", "0");
    assert "11" + "." + "0" == "11.0";
    assert DigitsValue("11") == 11 by { assert "11"[..1] == "1"; }
    NeedsLegacyIff([11, 0]);
    ParseTwoPieces("12", "0");
    assert "12" + "." + "0" == "12.0";
    assert DigitsValue("12") == 12 by { assert "12"[..1] == "1"; }
    NeedsLegacyIff([12, 0]);
  }

  /** Names with a component int() rejects make `_get_python` raise: an empty name, a letter, an empty component. */
  lemma MalformedExamples(python2: string, host: Host)
    ensures GetPython("", python2, host).None?
    ensures GetPython("8.x", python2, host).None?
    ensures GetPython("8..0", python2, host).None?
    ensures GetPython("12.", python2, host).None?
  {
    assert !IsDigit("8.x"[2]);
    assert "8..0"[1] == '.' && "8..0"[2] == '.';
    assert "12."[2] == '.';
  }
}
