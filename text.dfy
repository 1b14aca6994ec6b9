/**
 * Reading back the strings the client builds: the first position of a
 * character, and decimal digit strings. These are reference readers used to
 * state round trips for the formatters and URL builders; the client itself
 * never parses its own output.
 */
module Text {
  import opened Wrappers
  import Js

  /** The first position of `c` in `s`, if any. */
  function IndexOf(s: string, c: char): (r: Option<nat>)
    ensures r.None? <==> c !in s
    ensures r.Some? ==> r.value < |s| && s[r.value] == c && c !in s[..r.value]
    decreases |s|
  {
    if s == [] then None
    else if s[0] == c then Some(0)
    else match IndexOf(s[1..], c)
      case None => None
      case Some(i) => assert s[..i + 1] == [s[0]] + s[1..][..i]; Some(i + 1)
  }

  /** The first occurrence of a separator is found right after a prefix that lacks it. */
  lemma IndexOfAfter(a: string, c: char, b: string)
    requires c !in a
    ensures IndexOf(a + [c] + b, c) == Some(|a|)
  {
    var s := a + [c] + b;
    var r := IndexOf(s, c);
    assert s[|a|] == c;
    assert s[..|a|] == a;
  }

  lemma DigitsLackChar(s: string, c: char)
    requires Js.AllDigits(s) && !Js.IsDigit(c)
    ensures c !in s
  {
  }

  /** The value of a string of decimal digits (0 for the empty string). */
  function ValueOf(s: string): nat
    requires Js.AllDigits(s)
    decreases |s|
  {
    if s == [] then 0
    else ValueOf(s[..|s| - 1]) * 10 + (s[|s| - 1] as int - '0' as int)
  }

  /** A non-empty digit string read as a number. */
  function ParseNat(s: string): (r: Option<nat>)
    ensures r.Some? <==> s != [] && Js.AllDigits(s)
  {
    if s != [] && Js.AllDigits(s) then Some(ValueOf(s)) else None
  }

  /** Reading a number's decimal representation gives the number back. */
  lemma {:induction false} ReadNatToString(n: nat)
    ensures ParseNat(Js.NatToString(n)) == Some(n)
    decreases n
  {
    var s := Js.NatToString(n);
    if n >= 10 {
      ReadNatToString(n / 10);
      assert s[..|s| - 1] == Js.NatToString(n / 10);
      assert s[|s| - 1] as int - '0' as int == n % 10;
      assert ValueOf(s) == (n / 10) * 10 + n % 10;
    }
  }

  /** A leading zero does not change a digit string's value. */
  lemma {:induction false} LeadingZero(s: string)
    requires Js.AllDigits(s)
    ensures Js.AllDigits("0" + s) && ValueOf("0" + s) == ValueOf(s)
    decreases |s|
  {
    if s != [] {
      var t := "0" + s;
      assert t[..|t| - 1] == "0" + s[..|s| - 1];
      LeadingZero(s[..|s| - 1]);
    }
  }

  /** Zero padding does not change a digit string's value. */
  lemma {:induction false} ZeroPadding(s: string, width: nat)
    requires s != [] && Js.AllDigits(s)
    ensures var p := Js.PadStart(s, width, '0');
            ParseNat(p) == ParseNat(s)
    decreases width
  {
    if |s| < width {
      var p := Js.PadStart(s, width, '0');
      var q := Js.PadStart(s, width - 1, '0');
      assert p == "0" + q;
      ZeroPadding(s, width - 1);
      LeadingZero(q);
    }
  }
}
