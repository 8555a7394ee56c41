/** subcommand/controller/command.go: the auth method that several controllers
    share, and the sorted merge with which each adds its own part. */
module AuthMethods {
  import opened Prelude
  import opened Strings

  /** Inserting into a strictly sorted list. */
  function Insert(s: seq<string>, x: string): seq<string> {
    if s == [] then [x]
    else if x == s[0] then s
    else if Less(x, s[0]) then [x] + s
    else [s[0]] + Insert(s[1..], x)
  }

  /** The sorted list of a list's elements. */
  function SortedUnique(strs: seq<string>): seq<string> {
    if strs == [] then [] else Insert(SortedUnique(strs[..|strs| - 1]), strs[|strs| - 1])
  }

  lemma PrependSorts(x: string, s: seq<string>)
    requires StrictlySorted(s)
    requires forall y :: y in s ==> Less(x, y)
    ensures StrictlySorted([x] + s)
  {
  }

  lemma InsertElements(s: seq<string>, x: string)
    ensures forall y :: y in Insert(s, x) <==> y in s || y == x
  {
  }

  lemma {:induction false} InsertSorted(s: seq<string>, x: string)
    requires StrictlySorted(s)
    ensures StrictlySorted(Insert(s, x))
  {
    if s != [] && x != s[0] {
      LessTrichotomy(x, s[0]);
      if Less(x, s[0]) {
        forall j | 0 <= j < |s| ensures Less(x, s[j]) {
          if j > 0 { LessTransitive(x, s[0], s[j]); }
        }
        PrependSorts(x, s);
      } else {
        InsertSorted(s[1..], x);
        InsertElements(s[1..], x);
        PrependSorts(s[0], Insert(s[1..], x));
      }
    }
  }

  lemma {:induction false} SortedUniqueSorts(strs: seq<string>)
    ensures StrictlySorted(SortedUnique(strs)) && Elements(SortedUnique(strs)) == Elements(strs)
  {
    if strs != [] {
      var rest := strs[..|strs| - 1];
      SortedUniqueSorts(rest);
      InsertSorted(SortedUnique(rest), strs[|strs| - 1]);
      InsertElements(SortedUnique(rest), strs[|strs| - 1]);
      assert forall y :: y in SortedUnique(rest) <==> y in Elements(SortedUnique(rest));
      assert forall y :: y in rest <==> y in Elements(rest);
      assert strs == rest + [strs[|strs| - 1]];
    }
  }

  /** It is the only strictly sorted list with these elements. */
  lemma SortedUniqueIs(strs: seq<string>, t: seq<string>)
    requires StrictlySorted(t) && Elements(t) == Elements(strs)
    ensures t == SortedUnique(strs)
  {
    SortedUniqueSorts(strs);
    StrictlySortedUnique(t, SortedUnique(strs));
  }

  /** uniqueStrings: the keys of a set, in any order, then sorted. */
  method UniqueStrings(strs: seq<string>) returns (result: seq<string>)
    ensures result == SortedUnique(strs)
  {
    if |strs| == 0 { return []; }
    var unique := {};
    for i := 0 to |strs|
      invariant unique == Elements(strs[..i])
    {
      assert strs[..i + 1] == strs[..i] + [strs[i]];
      unique := unique + {strs[i]};
    }
    assert strs[..|strs|] == strs;
    result := [];
    var rest := unique;
    while rest != {}
      invariant rest <= unique && Elements(result) == unique - rest
    {
      var s :| s in rest;
      assert Elements(result + [s]) == Elements(result) + {s};
      result, rest := result + [s], rest - {s};
    }
    result := SortStrings(result);
    SortedUniqueIs(strs, result);
  }

  /** sort.Strings, on a list whose duplicates do not matter. */
  method SortStrings(strs: seq<string>) returns (sorted: seq<string>)
    ensures StrictlySorted(sorted) && Elements(sorted) == Elements(strs)
  {
    sorted := [];
    for i := 0 to |strs|
      invariant sorted == SortedUnique(strs[..i])
    {
      assert strs[..i + 1][..i] == strs[..i];
      sorted := Insert(sorted, strs[i]);
    }
    assert strs[..|strs|] == strs;
    SortedUniqueSorts(strs);
  }

  // The merge

  datatype NamespaceRule = NamespaceRule(selector: string, bindNamespace: string)

  /** The namespace rules are overwritten by an update, the two lists merged. */
  datatype AuthMethod =
    AuthMethod(principals: seq<string>, tags: seq<string>, namespaceRules: seq<NamespaceRule>)

  predicate Sorted(m: AuthMethod) { StrictlySorted(m.principals) && StrictlySorted(m.tags) }

  function Merge(current: seq<string>, ours: seq<string>): seq<string> {
    SortedUnique(current + ours)
  }

  /** Whether upsertAuthMethod finds nothing to update. */
  predicate UpToDate(stored: AuthMethod, ours: AuthMethod) {
    Merge(stored.principals, ours.principals) == stored.principals && Merge(stored.tags, ours.tags) == stored.tags
  }

  /** upsertAuthMethod, on what is stored under the method's name. */
  function Upsert(stored: Option<AuthMethod>, ours: AuthMethod): AuthMethod {
    match stored
    case None => ours
    case Some(m) =>
      if UpToDate(m, ours) then m
      else ours.(principals := Merge(m.principals, ours.principals), tags := Merge(m.tags, ours.tags))
  }

  lemma MergeIsUnion(current: seq<string>, ours: seq<string>)
    ensures StrictlySorted(Merge(current, ours)) && Elements(Merge(current, ours)) == Elements(current) + Elements(ours)
  {
    SortedUniqueSorts(current + ours);
    assert Elements(current + ours) == Elements(current) + Elements(ours);
  }

  /** The write is suppressed exactly when the stored lists are already in sorted
      form and contain all that this controller has to add. */
  lemma SkipExactly(stored: AuthMethod, ours: AuthMethod)
    ensures UpToDate(stored, ours) <==>
      && Sorted(stored)
      && Elements(ours.principals) <= Elements(stored.principals) && Elements(ours.tags) <= Elements(stored.tags)
  {
    MergeIsUnion(stored.principals, ours.principals);
    MergeIsUnion(stored.tags, ours.tags);
    if
      && Sorted(stored)
      && Elements(ours.principals) <= Elements(stored.principals) && Elements(ours.tags) <= Elements(stored.tags)
    {
      StrictlySortedUnique(Merge(stored.principals, ours.principals), stored.principals);
      StrictlySortedUnique(Merge(stored.tags, ours.tags), stored.tags);
    }
  }

  /** Whether written or skipped, what is stored afterwards has the union of both
      sides' principals and tags: nothing is ever lost. */
  lemma UpsertIsUnion(stored: Option<AuthMethod>, ours: AuthMethod)
    requires Sorted(ours)
    ensures var m := Upsert(stored, ours);
      && Sorted(m)
      && Elements(m.principals) ==
          Elements(ours.principals) + (if stored.Some? then Elements(stored.value.principals) else {})
      && Elements(m.tags) == Elements(ours.tags) + (if stored.Some? then Elements(stored.value.tags) else {})
  {
    if stored.Some? {
      SkipExactly(stored.value, ours);
      MergeIsUnion(stored.value.principals, ours.principals);
      MergeIsUnion(stored.value.tags, ours.tags);
    }
  }

  /** Controllers one after the other. */
  function UpsertAll(stored: Option<AuthMethod>, controllers: seq<AuthMethod>): Option<AuthMethod> {
    if controllers == [] then stored
    else Some(Upsert(UpsertAll(stored, controllers[..|controllers| - 1]), controllers[|controllers| - 1]))
  }

  function AllPrincipals(controllers: seq<AuthMethod>): set<string> {
    set m, p | m in controllers && p in m.principals :: p
  }

  function AllTags(controllers: seq<AuthMethod>): set<string> {
    set m, t | m in controllers && t in m.tags :: t
  }

  lemma AllSnoc(controllers: seq<AuthMethod>, last: AuthMethod)
    ensures AllPrincipals(controllers + [last]) == AllPrincipals(controllers) + Elements(last.principals)
    ensures AllTags(controllers + [last]) == AllTags(controllers) + Elements(last.tags)
  {
  }

  /** The principals and tags of what is stored; none if nothing is. */
  function Principals(stored: Option<AuthMethod>): set<string> {
    if stored.Some? then Elements(stored.value.principals) else {}
  }

  function Tags(stored: Option<AuthMethod>): set<string> {
    if stored.Some? then Elements(stored.value.tags) else {}
  }

  lemma {:induction false} UpsertAllIsUnion(stored: Option<AuthMethod>, controllers: seq<AuthMethod>)
    requires forall m :: m in controllers ==> Sorted(m)
    ensures var m := UpsertAll(stored, controllers);
      && Principals(m) == Principals(stored) + AllPrincipals(controllers)
      && Tags(m) == Tags(stored) + AllTags(controllers)
      && (controllers != [] ==> m.Some? && Sorted(m.value))
  {
    if controllers != [] {
      var rest, last := controllers[..|controllers| - 1], controllers[|controllers| - 1];
      UpsertAllIsUnion(stored, rest);
      UpsertIsUnion(UpsertAll(stored, rest), last);
      assert controllers == rest + [last];
      AllSnoc(rest, last);
    }
  }

  /** The merge is a join: any controllers, as often as they like and in any
      order, leave the same sorted lists of all principals and of all tags. */
  lemma UpsertsCommute(stored: Option<AuthMethod>, these: seq<AuthMethod>, those: seq<AuthMethod>)
    requires these != [] && forall m :: m in these ==> Sorted(m)
    requires forall m :: m in these <==> m in those
    ensures var a, b := UpsertAll(stored, these), UpsertAll(stored, those);
      a.Some? && b.Some? && a.value.principals == b.value.principals && a.value.tags == b.value.tags
  {
    UpsertAllIsUnion(stored, these);
    UpsertAllIsUnion(stored, those);
    assert these[0] in those;
    assert AllPrincipals(these) == AllPrincipals(those) && AllTags(these) == AllTags(those);
    StrictlySortedUnique(UpsertAll(stored, these).value.principals, UpsertAll(stored, those).value.principals);
    StrictlySortedUnique(UpsertAll(stored, these).value.tags, UpsertAll(stored, those).value.tags);
  }
}
