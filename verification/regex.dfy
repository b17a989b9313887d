/** The regular patterns StringValue attaches to its string predicates, and
    StringValue.escapeRE, which quotes a literal string for use inside them.
    Only the pattern forms StringValue builds are given a meaning: literal
    characters, `\c` for a quoted non-alphanumeric c, `.`, a starred atom
    and an atom repeated `{k}` times. Any other operator character makes the
    pattern unparsable here. */
module Patterns {
  import opened Wrappers
  import opened JavaText

  datatype Atom = Chr(c: char) | AnyChar

  datatype Piece = One(a: Atom) | Star(a: Atom) | Times(a: Atom, k: nat)

  predicate IsAlnum(c: char) {
    'a' <= c <= 'z' || 'A' <= c <= 'Z' || '0' <= c <= '9'
  }

  /** The characters that are operators when they stand unquoted. */
  predicate IsMeta(c: char) {
    c == '[' || c == ']' || c == '^' || c == '$' || c == '(' || c == ')'
    || c == '|' || c == '+' || c == '?' || c == '{' || c == '}' || c == '*'
  }

  // ---- parsing ------------------------------------------------------------

  /** The first atom of a pattern and what follows it. A backslash before a
      letter or digit names a character class or a back reference, which the
      patterns here never use. */
  function ParseAtom(p: string): (r: Option<(Atom, string)>)
    requires |p| > 0
    ensures r.Some? ==> |r.value.1| < |p|
  {
    if p[0] == '\\' then
      if |p| >= 2 && !IsAlnum(p[1]) then Some((Chr(p[1]), p[2..])) else None
    else if p[0] == '.' then Some((AnyChar, p[1..]))
    else if IsMeta(p[0]) then None
    else Some((Chr(p[0]), p[1..]))
  }

  function Cons(x: Piece, r: Option<seq<Piece>>): Option<seq<Piece>> {
    if r.Some? then Some([x] + r.value) else None
  }

  /** A pattern as a sequence of pieces; None when it uses anything else. */
  function Parse(p: string): Option<seq<Piece>>
    decreases |p|
  {
    if |p| == 0 then Some([])
    else
      match ParseAtom(p)
      case None => None
      case Some((a, rest)) =>
        if |rest| > 0 && rest[0] == '*' then Cons(Star(a), Parse(rest[1..]))
        else if |rest| > 0 && rest[0] == '{' then
          var close := IndexOf(rest, '}');
          if close < 0 then None
          else
            var digits := rest[1..close];
            if |digits| > 0 && AllDigits(digits) then Cons(Times(a, DigitsValue(digits)), Parse(rest[close + 1..]))
            else None
        else Cons(One(a), Parse(rest))
  }

  /** One unfolding of Parse: an atom not followed by an operator. */
  lemma ParseOneStep(p: string)
    requires |p| > 0 && ParseAtom(p).Some?
    requires |ParseAtom(p).value.1| == 0 || (ParseAtom(p).value.1[0] != '*' && ParseAtom(p).value.1[0] != '{')
    ensures Parse(p) == Cons(One(ParseAtom(p).value.0), Parse(ParseAtom(p).value.1))
  {
  }

  /** One unfolding of Parse: a starred atom. */
  lemma ParseStarStep(p: string)
    requires |p| > 0 && ParseAtom(p).Some?
    requires |ParseAtom(p).value.1| > 0 && ParseAtom(p).value.1[0] == '*'
    ensures Parse(p) == Cons(Star(ParseAtom(p).value.0), Parse(ParseAtom(p).value.1[1..]))
  {
  }

  /** One unfolding of Parse: an atom repeated `{k}` times. */
  lemma ParseTimesStep(p: string, close: int)
    requires |p| > 0 && ParseAtom(p).Some?
    requires var rest := ParseAtom(p).value.1;
      |rest| > 0 && rest[0] == '{' && IndexOf(rest, '}') == close && 1 < close
      && AllDigits(rest[1..close])
    ensures var rest := ParseAtom(p).value.1;
      Parse(p) == Cons(Times(ParseAtom(p).value.0, DigitsValue(rest[1..close])), Parse(rest[close + 1..]))
  {
  }

  // ---- matching -----------------------------------------------------------

  predicate AtomMatches(a: Atom, c: char) {
    a.AnyChar? || a.c == c
  }

  predicate AllMatch(a: Atom, s: string) {
    forall i :: 0 <= i < |s| ==> AtomMatches(a, s[i])
  }

  /** The whole of t is matched by the pieces, in order. */
  predicate Matches(ps: seq<Piece>, t: string)
    decreases |ps|
  {
    if |ps| == 0 then |t| == 0
    else
      match ps[0]
      case One(a) => |t| > 0 && AtomMatches(a, t[0]) && Matches(ps[1..], t[1..])
      case Star(a) => exists i :: 0 <= i <= |t| && AllMatch(a, t[..i]) && Matches(ps[1..], t[i..])
      case Times(a, k) => k <= |t| && AllMatch(a, t[..k]) && Matches(ps[1..], t[k..])
  }

  /** t belongs to the language of the pattern; an unparsable pattern has
      none. */
  predicate Accepts(pattern: string, t: string) {
    match Parse(pattern)
    case None => false
    case Some(ps) => Matches(ps, t)
  }

  // ---- escapeRE -----------------------------------------------------------

  /** The class [^a-zA-z0-9] of StringValue.escapeRE: the range A-z also
      takes in `[`, `\`, `]`, `^`, `_` and the backquote, so those stay
      unquoted. */
  predicate QuotedAsWritten(c: char) {
    !('a' <= c <= 'z' || 'A' <= c <= 'z' || '0' <= c <= '9')
  }

  /** escapeRE as written: a backslash before every character of the class,
      every character kept in order. */
  function EscapeAsWritten(s: string): (r: string)
    ensures |r| >= |s|
  {
    if |s| == 0 then ""
    else (if QuotedAsWritten(s[0]) then ['\\', s[0]] else [s[0]]) + EscapeAsWritten(s[1..])
  }

  /** The backslash is left unquoted, so it quotes the character after it:
      startsWith("\") on the string "\" builds the pattern `\.*`, a run of
      literal dots, which does not accept the receiver although it starts
      with the argument. */
  lemma EscapeAsWrittenMissesBackslash()
    ensures EscapeAsWritten("\\") == "\\"
    ensures Parse(EscapeAsWritten("\\") + ".*") == Some([Star(Chr('.'))])
    ensures StartsWith("\\", "\\") && !Accepts(EscapeAsWritten("\\") + ".*", "\\")
  {
    var p := EscapeAsWritten("\\") + ".*";
    assert p == "\\.*";
    assert ParseAtom(p) == Some((Chr('.'), "*"));
    ParseStarStep(p);
    assert "*"[1..] == "";
    assert Parse("") == Some([]);
    var ps := [Star(Chr('.'))];
    assert [Star(Chr('.'))] + [] == ps;
    assert Parse(p) == Some(ps);
  }

  /** The class escapeRE evidently means: everything but ASCII letters and
      digits. */
  predicate Quoted(c: char) {
    !IsAlnum(c)
  }

  /** escapeRE with the class [^a-zA-Z0-9]. */
  function EscapeRE(s: string): (r: string)
    ensures |r| >= |s|
  {
    if |s| == 0 then ""
    else (if Quoted(s[0]) then ['\\', s[0]] else [s[0]]) + EscapeRE(s[1..])
  }

  /** The two escapes differ exactly on the six characters between Z and
      a. */
  lemma EscapesDiffer(c: char)
    ensures QuotedAsWritten(c) != Quoted(c) <==> 'Z' < c < 'a'
  {
  }

  /** The pieces that match s literally. */
  function Literal(s: string): (r: seq<Piece>)
    ensures |r| == |s|
  {
    if |s| == 0 then [] else [One(Chr(s[0]))] + Literal(s[1..])
  }

  function Prepend(ps: seq<Piece>, r: Option<seq<Piece>>): Option<seq<Piece>> {
    if r.Some? then Some(ps + r.value) else None
  }

  /** An escaped string starts with a backslash or with a letter or digit,
      never with an operator. */
  lemma EscapeFirst(s: string)
    requires |s| > 0
    ensures |EscapeRE(s)| > 0 && (EscapeRE(s)[0] == '\\' || IsAlnum(EscapeRE(s)[0]))
  {
  }

  /** A quoted character is one literal atom. */
  lemma QuotedAtom(c: char, rest: string)
    requires Quoted(c)
    ensures ParseAtom(['\\', c] + rest) == Some((Chr(c), rest))
  {
    var p := ['\\', c] + rest;
    assert p[0] == '\\' && p[1] == c && p[2..] == rest;
  }

  /** A letter or digit is one literal atom. */
  lemma PlainAtom(c: char, rest: string)
    requires !Quoted(c)
    ensures ParseAtom([c] + rest) == Some((Chr(c), rest))
  {
    var p := [c] + rest;
    assert p[0] == c && p[1..] == rest;
  }

  /** The first atom of an escaped string is its first character. */
  lemma EscapedAtom(s: string, tail: string)
    requires |s| > 0
    ensures |EscapeRE(s) + tail| > 0
    ensures ParseAtom(EscapeRE(s) + tail) == Some((Chr(s[0]), EscapeRE(s[1..]) + tail))
  {
    var rest := EscapeRE(s[1..]) + tail;
    if Quoted(s[0]) {
      assert EscapeRE(s) == ['\\', s[0]] + EscapeRE(s[1..]);
      Assoc(['\\', s[0]], EscapeRE(s[1..]), tail);
      QuotedAtom(s[0], rest);
    } else {
      assert EscapeRE(s) == [s[0]] + EscapeRE(s[1..]);
      Assoc([s[0]], EscapeRE(s[1..]), tail);
      PlainAtom(s[0], rest);
    }
  }

  /** The escaped string parses as its characters, one literal piece each,
      whatever follows it, as long as that is not a postfix operator. */
  lemma {:induction false} ParseEscaped(s: string, tail: string)
    requires |tail| == 0 || (tail[0] != '*' && tail[0] != '{')
    ensures Parse(EscapeRE(s) + tail) == Prepend(Literal(s), Parse(tail))
    decreases |s|
  {
    if |s| == 0 {
      assert EscapeRE(s) + tail == tail;
      if Parse(tail).Some? {
        assert Literal(s) + Parse(tail).value == Parse(tail).value;
      }
    } else {
      var rest := EscapeRE(s[1..]) + tail;
      EscapedAtom(s, tail);
      if |s| > 1 {
        EscapeFirst(s[1..]);
        assert rest[0] == EscapeRE(s[1..])[0];
      }
      ParseOneStep(EscapeRE(s) + tail);
      ParseEscaped(s[1..], tail);
      var r := Parse(tail);
      if r.Some? {
        assert [One(Chr(s[0]))] + (Literal(s[1..]) + r.value) == Literal(s) + r.value;
      }
    }
  }

  // ---- what the patterns parse to ---------------------------------------

  /** `.*` followed by anything. */
  lemma ParseAnyStar(tail: string)
    ensures Parse(".*" + tail) == Cons(Star(AnyChar), Parse(tail))
  {
    var p := ".*" + tail;
    var rest := "*" + tail;
    assert p[0] == '.' && p[1..] == rest;
    assert ParseAtom(p) == Some((AnyChar, rest));
    assert rest[0] == '*' && rest[1..] == tail;
    ParseStarStep(p);
  }

  lemma ParseEmpty()
    ensures Parse("") == Some([])
  {
  }

  /** The pattern of startsWith(s). */
  lemma ParsePrefixPattern(s: string)
    ensures Parse(EscapeRE(s) + ".*") == Some(Literal(s) + [Star(AnyChar)])
  {
    ParseEmpty();
    ParseAnyStar("");
    assert ".*" + "" == ".*";
    assert [Star(AnyChar)] + [] == [Star(AnyChar)];
    assert Parse(".*") == Some([Star(AnyChar)]);
    ParseEscaped(s, ".*");
  }

  /** The pattern of endsWith(s). */
  lemma ParseSuffixPattern(s: string)
    ensures Parse(".*" + EscapeRE(s)) == Some([Star(AnyChar)] + Literal(s))
  {
    ParseEmpty();
    ParseEscaped(s, "");
    assert EscapeRE(s) + "" == EscapeRE(s);
    assert Literal(s) + [] == Literal(s);
    ParseAnyStar(EscapeRE(s));
  }

  /** The pattern of contains(s). */
  lemma ParseInfixPattern(s: string)
    ensures Parse(".*" + EscapeRE(s) + ".*") == Some([Star(AnyChar)] + Literal(s) + [Star(AnyChar)])
  {
    ParsePrefixPattern(s);
    ParseAnyStar(EscapeRE(s) + ".*");
    assert ".*" + EscapeRE(s) + ".*" == ".*" + (EscapeRE(s) + ".*");
    assert [Star(AnyChar)] + (Literal(s) + [Star(AnyChar)]) == [Star(AnyChar)] + Literal(s) + [Star(AnyChar)];
  }

  /** `.{k}` for a printed natural number k, followed by anything. */
  lemma ParseRepeat(k: nat, tail: string)
    ensures Parse(".{" + IntToString(k) + "}" + tail) == Cons(Times(AnyChar, k), Parse(tail))
  {
    var d := IntToString(k);
    NatToStringDigits(k);
    var rest := "{" + d + "}" + tail;
    var p := ".{" + d + "}" + tail;
    assert p[0] == '.' && p[1..] == rest;
    assert ParseAtom(p) == Some((AnyChar, rest));
    assert rest[|d| + 1] == '}';
    forall i | 0 <= i <= |d|
      ensures rest[i] != '}'
    {
      if i > 0 {
        assert rest[i] == d[i - 1];
      }
    }
    assert IndexOf(rest, '}') == |d| + 1;
    assert rest[1..|d| + 1] == d;
    assert rest[|d| + 2..] == tail;
    ParseTimesStep(p, |d| + 1);
  }

  /** A negative offset prints a minus sign, which `{k}` does not accept. */
  lemma ParseNegativeRepeat(k: int, tail: string)
    requires k < 0
    ensures Parse(".{" + IntToString(k) + "}" + tail) == None
  {
    var d := IntToString(k);
    var rest := "{" + d + "}" + tail;
    var p := ".{" + d + "}" + tail;
    assert p[0] == '.' && p[1..] == rest;
    assert ParseAtom(p) == Some((AnyChar, rest));
    assert rest[0] == '{' && rest[1] == '-';
    var close := IndexOf(rest, '}');
    if close > 1 {
      assert rest[1..close][0] == '-';
    }
  }

  /** The pattern of startsWith(s, k); none for a negative k. */
  lemma ParseOffsetPattern(s: string, k: int)
    ensures var p := ".{" + IntToString(k) + "}" + EscapeRE(s) + ".*";
      Parse(p) == if k < 0 then None else Some([Times(AnyChar, k)] + Literal(s) + [Star(AnyChar)])
  {
    var tail := EscapeRE(s) + ".*";
    assert ".{" + IntToString(k) + "}" + EscapeRE(s) + ".*" == ".{" + IntToString(k) + "}" + tail;
    if k < 0 {
      ParseNegativeRepeat(k, tail);
    } else {
      ParseRepeat(k, tail);
      ParsePrefixPattern(s);
      assert [Times(AnyChar, k)] + (Literal(s) + [Star(AnyChar)]) == [Times(AnyChar, k)] + Literal(s) + [Star(AnyChar)];
    }
  }

  // ---- what the piece sequences match ------------------------------------

  lemma {:induction false} MatchLiteral(s: string, ps: seq<Piece>, t: string)
    ensures Matches(Literal(s) + ps, t) <==> StartsWith(t, s) && Matches(ps, t[|s|..])
    decreases |s|
  {
    if |s| == 0 {
      assert Literal(s) + ps == ps;
      assert t[|s|..] == t;
    } else {
      var q := Literal(s) + ps;
      assert q[0] == One(Chr(s[0])) && q[1..] == Literal(s[1..]) + ps;
      if |t| > 0 {
        MatchLiteral(s[1..], ps, t[1..]);
        if |s| <= |t| {
          assert t[1..][|s| - 1..] == t[|s|..];
          assert t[..|s|] == [t[0]] + t[1..][..|s| - 1];
        }
      }
    }
  }

  lemma MatchAnyStar(ps: seq<Piece>, t: string)
    ensures Matches([Star(AnyChar)] + ps, t) <==> exists i :: 0 <= i <= |t| && Matches(ps, t[i..])
  {
    var q := [Star(AnyChar)] + ps;
    assert q[0] == Star(AnyChar) && q[1..] == ps;
  }

  lemma MatchAnyTimes(k: nat, ps: seq<Piece>, t: string)
    ensures Matches([Times(AnyChar, k)] + ps, t) <==> k <= |t| && Matches(ps, t[k..])
  {
    var q := [Times(AnyChar, k)] + ps;
    assert q[0] == Times(AnyChar, k) && q[1..] == ps;
  }

  /** `.*` matches every string. */
  lemma MatchAnything(t: string)
    ensures Matches([Star(AnyChar)], t)
  {
    MatchAnyStar([], t);
    assert [Star(AnyChar)] + [] == [Star(AnyChar)];
    assert Matches([], t[|t|..]);
  }

  lemma PrefixMatch(s: string, t: string)
    ensures Matches(Literal(s) + [Star(AnyChar)], t) <==> StartsWith(t, s)
  {
    MatchLiteral(s, [Star(AnyChar)], t);
    if StartsWith(t, s) {
      MatchAnything(t[|s|..]);
    }
  }

  lemma SuffixMatch(s: string, t: string)
    ensures Matches([Star(AnyChar)] + Literal(s), t) <==> EndsWith(t, s)
  {
    MatchAnyStar(Literal(s), t);
    assert Literal(s) + [] == Literal(s);
    if EndsWith(t, s) {
      var i := |t| - |s|;
      MatchLiteral(s, [], t[i..]);
      assert t[i..][..|s|] == s;
      assert Matches([], t[i..][|s|..]);
    }
    if exists i :: 0 <= i <= |t| && Matches(Literal(s), t[i..]) {
      var i :| 0 <= i <= |t| && Matches(Literal(s), t[i..]);
      MatchLiteral(s, [], t[i..]);
      assert |t[i..][|s|..]| == 0;
      assert t[i..] == t[|t| - |s|..];
    }
  }

  lemma InfixMatch(s: string, t: string)
    ensures Matches([Star(AnyChar)] + Literal(s) + [Star(AnyChar)], t) <==> Contains(t, s)
  {
    var lit := Literal(s) + [Star(AnyChar)];
    assert [Star(AnyChar)] + Literal(s) + [Star(AnyChar)] == [Star(AnyChar)] + lit;
    MatchAnyStar(lit, t);
    if Contains(t, s) {
      var k :| 0 <= k <= |t| && StartsWithAt(t, s, k);
      SuffixPrefixMatch(s, t, k);
    }
    if exists i :: 0 <= i <= |t| && Matches(lit, t[i..]) {
      var i :| 0 <= i <= |t| && Matches(lit, t[i..]);
      SuffixPrefixMatch(s, t, i);
    }
  }

  /** The suffix of t from k is matched by s and then anything exactly when
      s occurs in t at k. */
  lemma SuffixPrefixMatch(s: string, t: string, k: nat)
    requires k <= |t|
    ensures Matches(Literal(s) + [Star(AnyChar)], t[k..]) <==> StartsWithAt(t, s, k)
  {
    PrefixMatch(s, t[k..]);
    if |s| <= |t| - k {
      assert t[k..][..|s|] == t[k..k + |s|];
    }
  }

  lemma OffsetMatch(s: string, k: nat, t: string)
    ensures Matches([Times(AnyChar, k)] + Literal(s) + [Star(AnyChar)], t) <==> StartsWithAt(t, s, k)
  {
    var lit := Literal(s) + [Star(AnyChar)];
    assert [Times(AnyChar, k)] + Literal(s) + [Star(AnyChar)] == [Times(AnyChar, k)] + lit;
    MatchAnyTimes(k, lit, t);
    if k <= |t| {
      SuffixPrefixMatch(s, t, k);
    }
  }

  // ---- the patterns of StringValue ---------------------------------------

  /** startsWith(s): `escapeRE(s).*` accepts t exactly when t starts with
      s. */
  lemma PrefixPattern(s: string, t: string)
    ensures Accepts(EscapeRE(s) + ".*", t) <==> StartsWith(t, s)
  {
    ParsePrefixPattern(s);
    PrefixMatch(s, t);
  }

  /** endsWith(s): `.*escapeRE(s)` accepts t exactly when t ends with s. */
  lemma SuffixPattern(s: string, t: string)
    ensures Accepts(".*" + EscapeRE(s), t) <==> EndsWith(t, s)
  {
    ParseSuffixPattern(s);
    SuffixMatch(s, t);
  }

  /** contains(s): `.*escapeRE(s).*` accepts t exactly when s occurs in t. */
  lemma InfixPattern(s: string, t: string)
    ensures Accepts(".*" + EscapeRE(s) + ".*", t) <==> Contains(t, s)
  {
    ParseInfixPattern(s);
    InfixMatch(s, t);
  }

  /** startsWith(s, k): `.{k}escapeRE(s).*` accepts t exactly when s occurs
      in t at offset k; for a negative k the pattern is malformed and the
      Java check is false. */
  lemma OffsetPattern(s: string, k: int, t: string)
    ensures Accepts(".{" + IntToString(k) + "}" + EscapeRE(s) + ".*", t) <==> StartsWithAt(t, s, k)
  {
    ParseOffsetPattern(s, k);
    if k >= 0 {
      OffsetMatch(s, k, t);
    }
  }
}
