/** Option values, standing in for JavaScript's `null`/`undefined` results of
    `find` and `findIndex` and for an empty gate input slot. */
module Options {
  datatype Option<+T> = None | Some(value: T)
}

/** The few string operations the board's text output relies on: the decimal
    text of a number, `String.prototype.substr(-2)` and `Array.prototype.join`. */
module Text {

  function DigitChar(d: nat): (c: char)
    requires d < 10
    ensures '0' <= c <= '9' && c as int - '0' as int == d
  {
    "0123456789"[d]
  }

  /** Decimal text of a natural number, without leading zeros. */
  function NatToString(n: nat): (s: string)
    ensures 1 <= |s|
    ensures forall i :: 0 <= i < |s| ==> '0' <= s[i] <= '9'
    decreases n
  {
    if n < 10 then [DigitChar(n)] else NatToString(n / 10) + [DigitChar(n % 10)]
  }

  /** The number that a string of decimal digits denotes. */
  function DigitsValue(s: string): nat
    requires forall i :: 0 <= i < |s| ==> '0' <= s[i] <= '9'
  {
    if s == [] then 0
    else DigitsValue(s[..|s| - 1]) * 10 + (s[|s| - 1] as int - '0' as int)
  }

  /** Reading the decimal text back gives the number: the text is faithful. */
  lemma {:induction false} DigitsValueOfNatToString(n: nat)
    ensures DigitsValue(NatToString(n)) == n
    decreases n
  {
    var s := NatToString(n);
    if n >= 10 {
      DigitsValueOfNatToString(n / 10);
      assert s[..|s| - 1] == NatToString(n / 10);
    }
  }

  /** Different numbers have different decimal texts. */
  lemma NatToStringInjective(m: nat, n: nat)
    requires NatToString(m) == NatToString(n)
    ensures m == n
  {
    DigitsValueOfNatToString(m);
    DigitsValueOfNatToString(n);
  }

  /** `s.substr(-2)`: the last two characters, or the whole string when it is shorter. */
  function LastTwo(s: string): (r: string)
    ensures |r| == if |s| < 2 then |s| else 2
    ensures r == s[|s| - |r|..]
  {
    if |s| < 2 then s else s[|s| - 2..]
  }

  /** The items run together with `sep` between each two, as `join` does. */
  function Join(xs: seq<string>, sep: string): string
  {
    if xs == [] then ""
    else if |xs| == 1 then xs[0]
    else xs[0] + sep + Join(xs[1..], sep)
  }

  /** The joined text begins with the first item. */
  lemma JoinStartsWithFirst(xs: seq<string>, sep: string)
    requires xs != []
    ensures |xs[0]| <= |Join(xs, sep)| && Join(xs, sep)[..|xs[0]|] == xs[0]
  {
  }
}

/** The program's ids are strings of digits and lower-case letters (the
    clock's decimal text followed by a random base-36 suffix). The model
    numbers them: bijective base-36 numeration gives every such string
    exactly one number and every number exactly one such string. */
module Ids {
  import opened Text

  predicate IdChar(c: char)
  {
    '0' <= c <= '9' || 'a' <= c <= 'z'
  }

  predicate IdString(s: string)
  {
    forall i :: 0 <= i < |s| ==> IdChar(s[i])
  }

  /** The digit `d` of base 36: `0`-`9`, then `a`-`z`. */
  function IdDigit(d: nat): (c: char)
    requires d < 36
    ensures IdChar(c)
  {
    if d < 10 then ('0' as int + d) as char else ('a' as int + d - 10) as char
  }

  /** The value of a base-36 digit. */
  function DigitOf(c: char): (d: nat)
    requires IdChar(c)
    ensures d < 36 && IdDigit(d) == c
  {
    if c <= '9' then c as int - '0' as int else c as int - 'a' as int + 10
  }

  /** The string an id stands for. */
  function IdText(n: nat): (s: string)
    ensures IdString(s)
    decreases n
  {
    if n == 0 then "" else IdText((n - 1) / 36) + [IdDigit((n - 1) % 36)]
  }

  /** The id that stands for a string of digits and lower-case letters. */
  function IdOfText(s: string): nat
    requires IdString(s)
  {
    if s == [] then 0 else IdOfText(s[..|s| - 1]) * 36 + DigitOf(s[|s| - 1]) + 1
  }

  lemma {:induction false} IdOfTextOfIdText(n: nat)
    ensures IdOfText(IdText(n)) == n
    decreases n
  {
    if n != 0 {
      var s := IdText(n);
      IdOfTextOfIdText((n - 1) / 36);
      assert s[..|s| - 1] == IdText((n - 1) / 36);
      var d := (n - 1) % 36;
      assert DigitOf(IdDigit(d)) == d by {
        if d < 10 { } else { }
      }
    }
  }

  lemma {:induction false} IdTextOfIdOfText(s: string)
    requires IdString(s)
    ensures IdText(IdOfText(s)) == s
    decreases |s|
  {
    if s != [] {
      var front := s[..|s| - 1];
      IdTextOfIdOfText(front);
      var n := IdOfText(s);
      assert (n - 1) / 36 == IdOfText(front);
      assert (n - 1) % 36 == DigitOf(s[|s| - 1]);
      assert s == front + [s[|s| - 1]];
    }
  }

  /** Different ids stand for different strings. */
  lemma IdTextInjective(m: nat, n: nat)
    requires IdText(m) == IdText(n)
    ensures m == n
  {
    IdOfTextOfIdText(m);
    IdOfTextOfIdText(n);
  }

  /** `Date.now() + Math.random().toString(36).substr(2, 5)`: the id `addGate`
      makes from the clock reading and the random base-36 suffix, both of
      which the model takes as given. */
  function GeneratedId(now: nat, suffix: string): (id: nat)
    requires IdString(suffix)
    ensures IdText(id) == NatToString(now) + suffix
  {
    var s := NatToString(now) + suffix;
    assert IdString(s);
    IdTextOfIdOfText(s);
    IdOfText(s)
  }
}
