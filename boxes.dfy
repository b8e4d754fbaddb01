/** The 13 score boxes of classes.js and how a box name given by a caller is resolved. */
module Boxes {
  import opened Basics

  datatype Box = S1 | S2 | S3 | S4 | S5 | S6 | K3 | K4 | FH | SS | LS | K5 | CH

  /** `Boxes` in classes.js, in its order. */
  const Order: seq<Box> := [S1, S2, S3, S4, S5, S6, K3, K4, FH, SS, LS, K5, CH]

  const All: set<Box> := {S1, S2, S3, S4, S5, S6, K3, K4, FH, SS, LS, K5, CH}

  /** The property name a box has on a score object. */
  function Key(b: Box): string
  {
    match b
    case S1 => "s1" case S2 => "s2" case S3 => "s3" case S4 => "s4"
    case S5 => "s5" case S6 => "s6" case K3 => "k3" case K4 => "k4"
    case FH => "fh" case SS => "ss" case LS => "ls" case K5 => "k5"
    case CH => "ch"
  }

  /** The upper box counting face n, as the key "s" + n; None when that key is not a box. */
  function Upper(n: int): (r: Option<Box>)
    ensures r.Some? <==> 1 <= n <= 6
    ensures r.Some? ==> r.value in {S1, S2, S3, S4, S5, S6} && Key(r.value)[1] as int == '0' as int + n
  {
    if n == 1 then Some(S1) else if n == 2 then Some(S2) else if n == 3 then Some(S3)
    else if n == 4 then Some(S4) else if n == 5 then Some(S5) else if n == 6 then Some(S6)
    else None
  }

  function LowerChar(c: char): char
  {
    if 'A' <= c <= 'Z' then (c as int + 32) as char else c
  }

  /** String.prototype.toLowerCase restricted to ASCII letters. */
  function Lower(s: string): string
  {
    seq(|s|, i requires 0 <= i < |s| => LowerChar(s[i]))
  }

  /** `box.toLowerCase()` followed by checkBoxValue: the box a name denotes, if any. */
  function Parse(name: string): (r: Option<Box>)
    ensures r.Some? ==> Key(r.value) == Lower(name)
    ensures r.None? <==> forall b: Box :: Key(b) != Lower(name)
  {
    var k := Lower(name);
    if |k| != 2 then None
    else
      var c, d := k[0], k[1];
      assert k == [c, d];
      if c == 's' then
        if '1' <= d <= '6' then Upper(d as int - '0' as int)
        else if d == 's' then Some(SS)
        else None
      else if c == 'k' then
        if d == '3' then Some(K3) else if d == '4' then Some(K4) else if d == '5' then Some(K5)
        else None
      else if c == 'f' && d == 'h' then Some(FH)
      else if c == 'l' && d == 's' then Some(LS)
      else if c == 'c' && d == 'h' then Some(CH)
      else None
  }

  lemma KeyInjective(a: Box, b: Box)
    ensures Key(a) == Key(b) ==> a == b
  {
  }

  lemma AllHoldsEveryBox(b: Box)
    ensures b in All && b in Order
  {
  }

  /** Every box's own key resolves to that box, so Score.set(box) after tally's lowercasing hits the same box. */
  lemma ParseKey(b: Box)
    ensures Parse(Key(b)) == Some(b)
  {
    assert Lower(Key(b)) == Key(b);
  }

  /** An illustration of the `Key(b) == Lower(name)` clause of Parse: upper-case input denotes the same box. */
  lemma ParseIgnoresCase()
    ensures Parse("FH") == Some(FH) && Parse("K5") == Some(K5) && Parse("Ch") == Some(CH)
  {
    assert Lower("FH") == "fh";
    assert Lower("K5") == "k5";
    assert Lower("Ch") == "ch";
  }

  /** The derived totals and the b5 bonus are not boxes: naming them is a RangeError. */
  lemma ParseRejectsTotals()
    ensures Parse("sub1") == None && Parse("b5") == None && Parse("") == None
  {
    assert Lower("sub1") == "sub1";
    assert Lower("b5") == "b5";
    assert Lower("b5") != "s1" && Lower("b5") != "s2" && Lower("b5") != "k5";
  }
}
