/** The library string operations the program relies on: splitting at a
    separator, joining, and the byte-wise ordering used when sorting. */
module Strings {
  import opened Prelude

  predicate NoneContains(parts: seq<string>, sep: char) {
    forall i :: 0 <= i < |parts| ==> sep !in parts[i]
  }

  function Join(parts: seq<string>, sep: char): string {
    if |parts| == 0 then ""
    else if |parts| == 1 then parts[0]
    else parts[0] + [sep] + Join(parts[1..], sep)
  }

  /** Go's strings.Split for a one-character separator. */
  function Split(s: string, sep: char): (parts: seq<string>)
    ensures |parts| > 0
    ensures NoneContains(parts, sep)
  {
    if s == "" then [""]
    else
      var rest := Split(s[1..], sep);
      if s[0] == sep then [""] + rest else [[s[0]] + rest[0]] + rest[1..]
  }

  /** Joining the parts gives the string back. */
  lemma {:induction false} JoinSplit(s: string, sep: char)
    ensures Join(Split(s, sep), sep) == s
  {
    if s != "" {
      JoinSplit(s[1..], sep);
      var rest := Split(s[1..], sep);
      if s[0] == sep {
        assert ([""] + rest)[1..] == rest;
      } else {
        assert ([[s[0]] + rest[0]] + rest[1..])[1..] == rest[1..];
      }
    }
  }

  /** Dropping the first character of the first part. */
  function Shorter(parts: seq<string>): seq<string>
    requires |parts| > 0 && parts[0] != ""
  {
    [parts[0][1..]] + parts[1..]
  }

  lemma JoinShorter(parts: seq<string>, sep: char)
    requires |parts| > 0 && parts[0] != ""
    ensures Join(parts, sep) == [parts[0][0]] + Join(Shorter(parts), sep)
  {
    var shorter := Shorter(parts);
    assert shorter[1..] == parts[1..] && parts[0] == [parts[0][0]] + shorter[0];
    if |parts| > 1 {
      var rest := [sep] + Join(parts[1..], sep);
      assert Join(parts, sep) == parts[0] + rest && Join(shorter, sep) == shorter[0] + rest;
    }
  }

  lemma JoinEmpty(parts: seq<string>, sep: char)
    requires |parts| > 1 && parts[0] == ""
    ensures Join(parts, sep) == [sep] + Join(parts[1..], sep)
  {
  }

  lemma SplitChar(c: char, s: string, sep: char)
    requires c != sep
    ensures var rest := Split(s, sep); Split([c] + s, sep) == [[c] + rest[0]] + rest[1..]
  {
    assert ([c] + s)[1..] == s;
  }

  lemma SplitSep(s: string, sep: char)
    ensures Split([sep] + s, sep) == [""] + Split(s, sep)
  {
    assert ([sep] + s)[1..] == s;
  }

  /** Splitting a joined list of separator-free parts gives the list back. */
  lemma {:induction false} SplitJoin(parts: seq<string>, sep: char)
    requires |parts| > 0 && NoneContains(parts, sep)
    ensures Split(Join(parts, sep), sep) == parts
    decreases |Join(parts, sep)|
  {
    if parts[0] != "" {
      var shorter := Shorter(parts);
      JoinShorter(parts, sep);
      SplitJoin(shorter, sep);
      SplitChar(parts[0][0], Join(shorter, sep), sep);
      assert shorter[1..] == parts[1..] && parts[0] == [parts[0][0]] + shorter[0];
      assert parts == [[parts[0][0]] + shorter[0]] + shorter[1..];
    } else if |parts| > 1 {
      JoinEmpty(parts, sep);
      SplitJoin(parts[1..], sep);
      SplitSep(Join(parts[1..], sep), sep);
      assert parts == [""] + parts[1..];
    } else {
      assert parts == [""];
    }
  }

  /** Byte-wise (lexicographic) order, as used by Go's sort.Strings. */
  predicate Less(a: string, b: string) {
    b != "" && (a == "" || a[0] < b[0] || (a[0] == b[0] && Less(a[1..], b[1..])))
  }

  lemma {:induction false} LessTrichotomy(a: string, b: string)
    ensures Less(a, b) || a == b || Less(b, a)
    ensures !(Less(a, b) && Less(b, a))
    ensures !Less(a, a)
  {
    if a != "" {
      LessTrichotomy(a[1..], a[1..]);
      if b != "" {
        LessTrichotomy(a[1..], b[1..]);
        if a[0] == b[0] && a[1..] == b[1..] {
          assert a == [a[0]] + a[1..] == b;
        }
      }
    }
  }

  lemma {:induction false} LessTransitive(a: string, b: string, c: string)
    requires Less(a, b) && Less(b, c)
    ensures Less(a, c)
  {
    if a != "" && a[0] == b[0] && b[0] == c[0] {
      LessTransitive(a[1..], b[1..], c[1..]);
    }
  }

  /** Sorted and free of duplicates. */
  predicate StrictlySorted(s: seq<string>) {
    forall i, j :: 0 <= i < j < |s| ==> Less(s[i], s[j])
  }

  function Elements(s: seq<string>): set<string> {
    set x | x in s
  }

  /** A strictly sorted list is determined by its elements. */
  lemma {:induction false} StrictlySortedUnique(s: seq<string>, t: seq<string>)
    requires StrictlySorted(s) && StrictlySorted(t) && Elements(s) == Elements(t)
    ensures s == t
  {
    ElementsEmpty(s);
    ElementsEmpty(t);
    if s != [] {
      FirstIsLeast(s, t[0]);
      FirstIsLeast(t, s[0]);
      LessTrichotomy(s[0], t[0]);
      assert s[0] == t[0];
      TailElements(s);
      TailElements(t);
      StrictlySortedUnique(s[1..], t[1..]);
      assert s == [s[0]] + s[1..] && t == [t[0]] + t[1..];
    }
  }

  lemma ElementsEmpty(s: seq<string>)
    ensures s == [] <==> Elements(s) == {}
  {
    if s != [] { assert s[0] in Elements(s); }
  }

  lemma FirstIsLeast(s: seq<string>, x: string)
    requires StrictlySorted(s) && s != [] && (x in s || x in Elements(s))
    ensures x == s[0] || Less(s[0], x)
  {
  }

  lemma TailElements(s: seq<string>)
    requires StrictlySorted(s) && s != []
    ensures Elements(s[1..]) == Elements(s) - {s[0]}
  {
    forall x | x in s[1..] ensures x != s[0] {
      LessTrichotomy(x, x);
    }
    assert s == [s[0]] + s[1..];
  }

  // Decimal numbers

  function Digit(d: nat): char
    requires d < 10
  {
    ('0' as int + d) as char
  }

  function Itoa(n: nat): string {
    if n < 10 then [Digit(n)] else Itoa(n / 10) + [Digit(n % 10)]
  }

  function Natural(s: string): Option<nat> {
    if s == "" || !('0' <= s[|s| - 1] <= '9') then None
    else
      var d := s[|s| - 1] as int - '0' as int;
      if |s| == 1 then Some(d)
      else
        var rest := Natural(s[..|s| - 1]);
        if rest.None? then None else Some(10 * rest.value + d)
  }

  /** Go's strconv.Atoi, on numbers of any size. */
  function Atoi(s: string): Option<int> {
    if s != "" && (s[0] == '-' || s[0] == '+') then
      var n := Natural(s[1..]);
      if n.None? then None
      else
        var value: int := if s[0] == '-' then 0 - n.value else n.value;
        Some(value)
    else Natural(s)
  }

  lemma {:induction false} AtoiItoa(n: nat)
    ensures Itoa(n) != "" && Natural(Itoa(n)) == Some(n) && Atoi(Itoa(n)) == Some(n)
  {
    if n >= 10 {
      AtoiItoa(n / 10);
      var s := Itoa(n);
      assert s[..|s| - 1] == Itoa(n / 10);
      assert s[0] == Itoa(n / 10)[0];
      ItoaStartsWithDigit(n);
    }
  }

  lemma {:induction false} ItoaStartsWithDigit(n: nat)
    ensures Itoa(n) != "" && '0' <= Itoa(n)[0] <= '9'
  {
    if n >= 10 { ItoaStartsWithDigit(n / 10); }
  }
}
