/**
 Event ids as the event store builds and takes them apart: the decimal rendering of a
 number (a fresh id and an instance number), the text before the first separator
 (`id.split('_')[0]`), and the string-prefix test that decides family membership.
 */
module Ids {

  /** The separator between a base id and an instance number in the event store. */
  const Separator: char := '_'

  predicate IsDigit(c: char) { '0' <= c <= '9' }

  predicate IsDigits(s: string) { forall k :: 0 <= k < |s| ==> IsDigit(s[k]) }

  function DigitChar(d: nat): (c: char)
    requires d < 10
    ensures IsDigit(c)
  {
    (48 + d) as char
  }

  function DigitValue(c: char): (d: nat)
    requires IsDigit(c)
    ensures d < 10
  {
    c as int - 48
  }

  /** The decimal text of a non-negative number, as a template literal or `toString` renders it. */
  function NatToString(n: nat): (s: string)
    ensures |s| >= 1 && IsDigits(s)
    decreases n
  {
    if n < 10 then [DigitChar(n)] else NatToString(n / 10) + [DigitChar(n % 10)]
  }

  /** Reads a string of decimal digits back as a number; the inverse of NatToString. */
  function ParseNat(s: string): nat
    requires IsDigits(s)
    decreases |s|
  {
    if s == [] then 0 else ParseNat(s[..|s| - 1]) * 10 + DigitValue(s[|s| - 1])
  }

  lemma {:induction false} ParseNatToString(n: nat)
    ensures ParseNat(NatToString(n)) == n
    decreases n
  {
    if n >= 10 {
      var s := NatToString(n);
      assert s[..|s| - 1] == NatToString(n / 10);
      ParseNatToString(n / 10);
    }
  }

  lemma NatToStringInjective(a: nat, b: nat)
    ensures NatToString(a) == NatToString(b) ==> a == b
  {
    ParseNatToString(a);
    ParseNatToString(b);
  }

  /** The text before the first `sep` in `s`, or all of `s` when there is none (`s.split(sep)[0]`). */
  function BeforeFirst(s: string, sep: char): (r: string)
    ensures r <= s && sep !in r
    ensures |r| < |s| ==> s[|r|] == sep
  {
    if s == [] || s[0] == sep then [] else [s[0]] + BeforeFirst(s[1..], sep)
  }

  /** The base id a (possibly instance) id names. */
  function BaseId(id: string): string
  {
    BeforeFirst(id, Separator)
  }

  /** The id of the `i`-th generated instance of the base event with id `baseId`. */
  function InstanceId(baseId: string, i: nat): string
  {
    baseId + [Separator] + NatToString(i)
  }

  /** Family membership as the store decides it: the base id itself, or any id it prefixes followed by the separator. */
  predicate InFamily(id: string, baseId: string)
  {
    id == baseId || baseId + [Separator] <= id
  }

  lemma FreshIdHasNoSeparator(n: nat)
    ensures Separator !in NatToString(n)
  {
    var s := NatToString(n);
    forall k | 0 <= k < |s|
      ensures s[k] != Separator
    {
      assert IsDigit(s[k]);
    }
  }

  /** A separator-free id is its own base id. */
  lemma BaseIdOfPlainId(b: string)
    requires Separator !in b
    ensures BaseId(b) == b
  {
    var r := BaseId(b);
    assert forall k :: 0 <= k < |b| ==> b[k] in b;
  }

  /** Splitting an instance id at its first separator gives back the base id, when the base id has no separator. */
  lemma BaseIdOfInstance(b: string, i: nat)
    requires Separator !in b
    ensures BaseId(InstanceId(b, i)) == b
  {
    var s := InstanceId(b, i);
    var r := BaseId(s);
    assert s[|b|] == Separator;
    assert forall k :: 0 <= k < |r| ==> r[k] == s[k] && r[k] in r;
    assert forall k :: 0 <= k < |b| ==> s[k] == b[k] && b[k] in b;
    assert r == s[..|r|] == b;
  }

  lemma InstanceIdInFamily(b: string, i: nat)
    ensures InFamily(InstanceId(b, i), b)
    ensures InstanceId(b, i) != b
  {
    assert InstanceId(b, i)[..|b| + 1] == b + [Separator];
  }

  lemma InstanceIdInjective(b: string, i: nat, j: nat)
    ensures InstanceId(b, i) == InstanceId(b, j) ==> i == j
  {
    if InstanceId(b, i) == InstanceId(b, j) {
      assert InstanceId(b, i)[|b| + 1..] == NatToString(i);
      assert InstanceId(b, j)[|b| + 1..] == NatToString(j);
      NatToStringInjective(i, j);
    }
  }
}
