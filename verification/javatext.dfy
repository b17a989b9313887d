/** The pieces of java.lang.String and java.lang.Long that the concolic engine
    relies on, stated over Dafny strings. */
module JavaText {
  import opened Wrappers

  /** String.startsWith(p, k): false for a negative offset or one that leaves
      no room for p. */
  predicate StartsWithAt(s: string, p: string, k: int) {
    0 <= k && k <= |s| - |p| && s[k..k + |p|] == p
  }

  /** String.startsWith(p). */
  predicate StartsWith(s: string, p: string) {
    |p| <= |s| && s[..|p|] == p
  }

  /** String.endsWith(p). */
  predicate EndsWith(s: string, p: string) {
    |p| <= |s| && s[|s| - |p|..] == p
  }

  /** String.contains(p). */
  predicate Contains(s: string, p: string) {
    exists k :: 0 <= k <= |s| && StartsWithAt(s, p, k)
  }

  lemma StartsWithIsAtZero(s: string, p: string)
    ensures StartsWith(s, p) <==> StartsWithAt(s, p, 0)
  {
  }

  /** String.indexOf(c): the first position of c, or -1. */
  function IndexOf(s: string, c: char): (r: int)
    ensures -1 <= r < |s|
    ensures r == -1 <==> c !in s
    ensures r >= 0 ==> s[r] == c && c !in s[..r]
  {
    if |s| == 0 then -1
    else if s[0] == c then 0
    else
      var r := IndexOf(s[1..], c);
      assert r >= 0 ==> s[..r + 1] == [s[0]] + s[1..][..r];
      if r == -1 then -1 else r + 1
  }

  /** String.trim(): drops every leading and trailing character at or below
      U+0020. */
  function Trim(s: string): string {
    TrimEnd(TrimStart(s))
  }

  function TrimStart(s: string): string {
    if |s| > 0 && s[0] <= ' ' then TrimStart(s[1..]) else s
  }

  function TrimEnd(s: string): string {
    if |s| > 0 && s[|s| - 1] <= ' ' then TrimEnd(s[..|s| - 1]) else s
  }

  lemma TrimNoOp(s: string)
    requires |s| > 0 && s[0] > ' ' && s[|s| - 1] > ' '
    ensures Trim(s) == s
  {
  }

  /** The pieces of s between single spaces, empty pieces included. */
  function Fields(s: string): (r: seq<string>)
    ensures |r| > 0
    decreases |s|
  {
    if ' ' !in s then [s]
    else
      var i := IndexOf(s, ' ');
      [s[..i]] + Fields(s[i + 1..])
  }

  function DropTrailingEmpty(ts: seq<string>): (r: seq<string>)
    ensures |r| <= |ts| && r == ts[..|r|]
  {
    if |ts| > 0 && ts[|ts| - 1] == "" then DropTrailingEmpty(ts[..|ts| - 1]) else ts
  }

  /** String.split(" "): when no space occurs the string itself is the only
      element; otherwise trailing empty pieces are removed. */
  function Split(s: string): seq<string> {
    if ' ' !in s then [s] else DropTrailingEmpty(Fields(s))
  }

  lemma FieldsCons(a: string, b: string)
    requires ' ' !in a
    ensures Fields(a + " " + b) == [a] + Fields(b)
  {
    var s := a + " " + b;
    assert s[|a| + 1..] == b;
    assert s[|a|] == ' ';
    assert s[..|a|] == a;
    assert ' ' in s;
    assert IndexOf(s, ' ') == |a|;
    assert s[|a| + 1..] == b;
  }

  lemma FieldsConsIndex(a: string, b: string, k: nat)
    requires ' ' !in a && |Fields(b)| == k
    ensures |Fields(a + " " + b)| == k + 1 && Fields(a + " " + b)[0] == a
    ensures k > 0 ==> Fields(a + " " + b)[k] == Fields(b)[k - 1]
  {
    FieldsCons(a, b);
  }

  lemma SplitIsFields(s: string)
    requires ' ' in s && Fields(s)[|Fields(s)| - 1] != ""
    ensures Split(s) == Fields(s)
  {
  }

  /** Splitting a solver model line `name : T = v;` on spaces yields five
      tokens, the first the name and the last the value. */
  lemma SplitModelLine(n: string, t: string, v: string)
    requires ' ' !in n && ' ' !in t && ' ' !in v && |v| > 0
    ensures var f := Split(n + " : " + t + " = " + v); |f| == 5 && f[0] == n && f[4] == v
  {
    var s := n + " " + (":" + " " + (t + " " + ("=" + " " + v)));
    assert n + " : " + t + " = " + v == s;
    assert Fields(v) == [v];
    FieldsConsIndex("=", v, 1);
    FieldsConsIndex(t, "=" + " " + v, 2);
    FieldsConsIndex(":", t + " " + ("=" + " " + v), 3);
    FieldsConsIndex(n, ":" + " " + (t + " " + ("=" + " " + v)), 4);
    assert s[|n|] == ' ';
    SplitIsFields(s);
  }

  /** Joins the parts with sep between consecutive ones, as a loop that
      appends the separator before every part but the first does. */
  function Join(parts: seq<string>, sep: string): string {
    if |parts| == 0 then ""
    else if |parts| == 1 then parts[0]
    else Join(parts[..|parts| - 1], sep) + sep + parts[|parts| - 1]
  }

  // ---- decimal numbers -------------------------------------------------

  predicate IsDigit(c: char) {
    '0' <= c <= '9'
  }

  predicate AllDigits(s: string) {
    forall i :: 0 <= i < |s| ==> IsDigit(s[i])
  }

  function DigitChar(d: int): (c: char)
    requires 0 <= d < 10
    ensures IsDigit(c)
  {
    ('0' as int + d) as char
  }

  /** The value of a run of decimal digits, most significant first. */
  function DigitsValue(s: string): nat
    requires AllDigits(s)
  {
    if |s| == 0 then 0
    else DigitsValue(s[..|s| - 1]) * 10 + (s[|s| - 1] as int - '0' as int)
  }

  function NatToString(n: nat): (r: string)
    decreases n
  {
    if n < 10 then [DigitChar(n)] else NatToString(n / 10) + [DigitChar(n % 10)]
  }

  /** Long.toString / String.valueOf on an integer. */
  function IntToString(i: int): string {
    if i < 0 then "-" + NatToString(-i) else NatToString(i)
  }

  /** Long.parseLong: an optional sign followed by one or more digits. */
  function ParseLong(s: string): Option<int> {
    if |s| > 1 && (s[0] == '-' || s[0] == '+') && AllDigits(s[1..]) then
      Some(if s[0] == '-' then -(DigitsValue(s[1..]) as int) else DigitsValue(s[1..]))
    else if |s| > 0 && AllDigits(s) then Some(DigitsValue(s))
    else None
  }

  lemma {:induction false} NatToStringDigits(n: nat)
    ensures |NatToString(n)| > 0
    ensures AllDigits(NatToString(n))
    ensures DigitsValue(NatToString(n)) == n
    decreases n
  {
    if n >= 10 {
      NatToStringDigits(n / 10);
      var s := NatToString(n / 10) + [DigitChar(n % 10)];
      assert s[..|s| - 1] == NatToString(n / 10);
    }
  }

  /** Round trip: Long.parseLong reads back what Long.toString wrote. */
  lemma {:induction false} ParseLongIntToString(i: int)
    ensures ParseLong(IntToString(i)) == Some(i)
  {
    if i < 0 {
      NatToStringDigits(-i);
      assert IntToString(i)[1..] == NatToString(-i);
    } else {
      NatToStringDigits(i);
    }
  }

  /** A printed integer holds no space, no semicolon, and starts and ends
      above U+0020. */
  lemma {:induction false} IntToStringShape(i: int)
    ensures |IntToString(i)| > 0
    ensures ' ' !in IntToString(i) && ';' !in IntToString(i)
    ensures IntToString(i)[0] > ' ' && IntToString(i)[|IntToString(i)| - 1] > ' '
  {
    var t := if i < 0 then -i else i;
    NatToStringDigits(t);
    var s := NatToString(t);
    assert forall k :: 0 <= k < |s| ==> s[k] != ' ' && s[k] != ';';
    if i < 0 {
      assert IntToString(i) == "-" + s;
      assert forall k :: 0 <= k < |IntToString(i)| ==> IntToString(i)[k] != ' ' && IntToString(i)[k] != ';';
    }
  }

  /** Concatenation regroups freely. */
  lemma Assoc(a: string, b: string, c: string)
    ensures a + b + c == a + (b + c)
  {
  }
}
