/** StringConstants: the table that interns string constants as dense
    integer ids. A string gets the next id the first time it is asked for,
    and keeps it; the reverse list gives the string back for an id. */
module Interning {
  import opened JavaText

  /** The table's contents: the string-to-id map and the reverse list. */
  datatype Table = Table(ids: map<string, int>, names: seq<string>)

  /** Both halves describe the same bijection between the strings seen and
      the ids 0 .. size-1. */
  predicate Valid(t: Table) {
    |t.ids| == |t.names|
    && (forall s :: s in t.ids ==> 0 <= t.ids[s] < |t.names| && t.names[t.ids[s]] == s)
    && (forall i :: 0 <= i < |t.names| ==> t.names[i] in t.ids && t.ids[t.names[i]] == i)
  }

  function Empty(): (t: Table)
    ensures Valid(t)
  {
    Table(map[], [])
  }

  /** get(String): the string's id, and the table afterwards. */
  function Intern(t: Table, s: string): (Table, int) {
    if s in t.ids then (t, t.ids[s])
    else (Table(t.ids[s := |t.ids|], t.names + [s]), |t.ids|)
  }

  /** get(int): the string with that id; an index outside the list makes
      ArrayList.get throw, and the fallback text is "string" and the
      number. */
  function Lookup(t: Table, i: int): string {
    if 0 <= i < |t.names| then t.names[i] else "string" + IntToString(i)
  }

  // ---- properties ---------------------------------------------------------

  /** Interning keeps the table a bijection. */
  lemma InternValid(t: Table, s: string)
    requires Valid(t)
    ensures Valid(Intern(t, s).0)
  {
    if s !in t.ids {
      var n := |t.ids|;
      var u := Intern(t, s).0;
      assert |u.ids| == n + 1;
      forall x | x in u.ids
        ensures 0 <= u.ids[x] < |u.names| && u.names[u.ids[x]] == x
      {
        if x != s {
          assert u.names[t.ids[x]] == t.names[t.ids[x]];
        }
      }
      forall i | 0 <= i < |u.names|
        ensures u.names[i] in u.ids && u.ids[u.names[i]] == i
      {
        if i < n {
          assert u.names[i] == t.names[i];
          assert t.names[i] != s;
        }
      }
    }
  }

  /** A new string gets the current size as its id and grows both halves
      by one; a known string keeps its id and leaves the table alone. */
  lemma InternShape(t: Table, s: string)
    requires Valid(t)
    ensures var (u, i) := Intern(t, s);
      (s in t.ids ==> u == t && i == t.ids[s])
      && (s !in t.ids ==>
            i == |t.names| && |u.ids| == |t.ids| + 1 && u.names == t.names + [s]
            && forall x :: x in t.ids ==> x in u.ids && u.ids[x] == t.ids[x])
  {
  }

  /** Asking twice gives the same id and changes nothing the second time. */
  lemma InternIdempotent(t: Table, s: string)
    ensures var (u, i) := Intern(t, s);
      Intern(u, s) == (u, i)
  {
  }

  /** get(get(s)) == s. */
  lemma RoundTrip(t: Table, s: string)
    requires Valid(t)
    ensures var (u, i) := Intern(t, s);
      Lookup(u, i) == s
  {
  }

  /** Distinct strings get distinct ids. */
  lemma DistinctIds(t: Table, a: string, b: string)
    requires Valid(t) && a in t.ids && b in t.ids && a != b
    ensures t.ids[a] != t.ids[b]
  {
  }

  /** An id outside the table falls back to "string" followed by the
      number, even a negative one. */
  lemma LookupFallback(t: Table, i: int)
    requires i < 0 || i >= |t.names|
    ensures Lookup(t, i) == "string" + IntToString(i)
    ensures i == -3 ==> Lookup(t, i) == "string-3"
  {
    if i == -3 {
      assert NatToString(3) == "3";
    }
  }

  // ---- the table object -----------------------------------------------------

  class StringConstants {
    var stringValue: map<string, int>
    var reverseMap: seq<string>

    function Contents(): Table
      reads this
    {
      Table(stringValue, reverseMap)
    }

    constructor ()
      ensures Contents() == Empty()
    {
      stringValue := map[];
      reverseMap := [];
    }

    /** get(String). */
    method GetId(s: string) returns (i: int)
      requires Valid(Contents())
      modifies this
      ensures Valid(Contents())
      ensures (Contents(), i) == Intern(old(Contents()), s)
    {
      InternValid(Contents(), s);
      if s in stringValue {
        i := stringValue[s];
      } else {
        i := |stringValue|;
        stringValue := stringValue[s := i];
        reverseMap := reverseMap + [s];
      }
    }

    /** get(int). */
    method GetString(i: int) returns (r: string)
      ensures r == Lookup(Contents(), i)
    {
      if 0 <= i < |reverseMap| {
        r := reverseMap[i];
      } else {
        r := "string" + IntToString(i);
      }
    }
  }
}
