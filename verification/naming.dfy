/** Names of generated heat pumps: Python's `f"{group}_{index}"`. */
module Naming {

  function Digit(d: nat): (c: char)
    requires d < 10
    ensures '0' <= c <= '9'
  {
    (('0' as int) + d) as char
  }

  /** `str(n)` for a non-negative integer. */
  function DecimalString(n: nat): (s: string)
    ensures |s| >= 1
    ensures forall i :: 0 <= i < |s| ==> '0' <= s[i] <= '9'
    ensures n >= 10 ==> |s| >= 2
    decreases n
  {
    if n < 10 then [Digit(n)] else DecimalString(n / 10) + [Digit(n % 10)]
  }

  /** Different indices print differently. */
  lemma {:induction false} DecimalStringInjective(a: nat, b: nat)
    requires DecimalString(a) == DecimalString(b)
    ensures a == b
    decreases a
  {
    var s := DecimalString(a);
    if a >= 10 && b >= 10 {
      assert s[|s| - 1] == Digit(a % 10) == Digit(b % 10);
      assert DecimalString(a / 10) == s[..|s| - 1] == DecimalString(b / 10);
      DecimalStringInjective(a / 10, b / 10);
    }
  }

  function GeneratedName(group: string, index: nat): (name: string)
    ensures |name| > |group| + 1 && name[..|group|] == group
  {
    group + "_" + DecimalString(index)
  }

  /** The separator sits right after the group name and only digits follow it. */
  lemma NameCharacters(group: string, index: nat)
    ensures GeneratedName(group, index)[|group|] == '_'
    ensures forall t :: |group| < t < |GeneratedName(group, index)| ==> '0' <= GeneratedName(group, index)[t] <= '9'
  {
    var d := DecimalString(index);
    assert forall t :: |group| < t < |GeneratedName(group, index)| ==> GeneratedName(group, index)[t] == d[t - |group| - 1];
  }

  /** No two (group, index) pairs produce the same name, because a printed index
      never contains the `_` that separates it from the group name. */
  lemma GeneratedNameInjective(g1: string, i1: nat, g2: string, i2: nat)
    requires GeneratedName(g1, i1) == GeneratedName(g2, i2)
    ensures g1 == g2 && i1 == i2
  {
    var n := GeneratedName(g1, i1);
    var d1, d2 := DecimalString(i1), DecimalString(i2);
    NameCharacters(g1, i1);
    NameCharacters(g2, i2);
    if |d1| != |d2| {
      assert false;
    } else {
      assert d1 == n[|n| - |d1|..] == d2;
      DecimalStringInjective(i1, i2);
      assert g1 == n[..|n| - |d1| - 1] == g2;
    }
  }

  /** Different (group, index) pairs give different names. */
  lemma GeneratedNamesDiffer(g1: string, i1: nat, g2: string, i2: nat)
    requires g1 != g2 || i1 != i2
    ensures GeneratedName(g1, i1) != GeneratedName(g2, i2)
  {
    if GeneratedName(g1, i1) == GeneratedName(g2, i2) {
      GeneratedNameInjective(g1, i1, g2, i2);
      assert false;
    }
  }
}
