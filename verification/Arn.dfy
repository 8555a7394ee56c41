/** testutil/iamauthtest/arn.go: parsing IAM ARNs and printing them in
    canonical form. */
module Arn {
  import opened Prelude
  import opened Strings

  datatype ParsedArn = ParsedArn(
    partition: string, accountNumber: string, kind: string,
    path: string, friendlyName: string, sessionInfo: string)

  datatype ArnError =
    | WrongPartCount | MissingPrefix | MissingPartition | UnknownService | MissingAccount
    | TooFewParts | TooFewAssumedRoleParts | UnknownPrincipal | MissingName

  const ASSUMED_ROLE := "assumed-role"
  const ROLE := "role"
  const USER := "user"

  function ParseArn(iamArn: string): Result<ParsedArn, ArnError> {
    var fullParts := Split(iamArn, ':');
    if |fullParts| != 6 then Err(WrongPartCount)
    else if fullParts[0] != "arn" then Err(MissingPrefix)
    else if fullParts[1] == "" then Err(MissingPartition)
    else if fullParts[2] != "iam" && fullParts[2] != "sts" then Err(UnknownService)
    else if fullParts[4] == "" then Err(MissingAccount)
    else ParseEntity(fullParts[1], fullParts[4], Split(fullParts[5], '/'))
  }

  /** The last colon-separated part, already split at its slashes. */
  function ParseEntity(partition: string, account: string, parts: seq<string>): Result<ParsedArn, ArnError>
    requires |parts| > 0
  {
    if |parts| < 2 then Err(TooFewParts)
    else if parts[0] == ASSUMED_ROLE then
      if |parts| < 3 then Err(TooFewAssumedRoleParts)
      else if parts[1] == "" then Err(MissingName)
      // Assumed roles have no path; the third part is the session name.
      else Ok(ParsedArn(partition, account, parts[0], "", parts[1], parts[2]))
    else if parts[0] != USER && parts[0] != ROLE then Err(UnknownPrincipal)
    else
      var name := parts[|parts| - 1];
      if name == "" then Err(MissingName)
      else Ok(ParsedArn(partition, account, parts[0], Join(parts[1..|parts| - 1], '/'), name, ""))
  }

  function CanonicalKind(kind: string): string {
    if kind == ASSUMED_ROLE then ROLE else kind
  }

  function CanonicalArn(p: ParsedArn): string {
    "arn:" + p.partition + ":iam::" + p.accountNumber + ":" + CanonicalKind(p.kind) + "/" + p.friendlyName
  }

  /** An ARN written out from its six colon-separated fields, the last given
      by its slash-separated parts: the reference the parser is compared to. */
  function WriteArn(partition: string, service: string, region: string, account: string, parts: seq<string>): string {
    Join(["arn", partition, service, region, account, Join(parts, '/')], ':')
  }

  predicate ColonFree(s: string) { ':' !in s }

  lemma {:induction false} JoinKeepsOut(parts: seq<string>, sep: char, c: char)
    requires c != sep
    ensures c !in Join(parts, sep) <==> NoneContains(parts, c)
  {
    if |parts| > 1 {
      JoinKeepsOut(parts[1..], sep, c);
      assert parts == [parts[0]] + parts[1..];
      if NoneContains(parts, c) {
        assert c !in parts[0];
        assert NoneContains(parts[1..], c);
      } else {
        assert c in parts[0] || !NoneContains(parts[1..], c);
      }
    }
  }

  /** Every ARN written from colon-free fields is parsed by those very fields. */
  lemma ParseWritten(partition: string, service: string, region: string, account: string, parts: seq<string>)
    requires ColonFree(partition) && ColonFree(service) && ColonFree(region) && ColonFree(account)
    requires |parts| > 0 && NoneContains(parts, '/') && NoneContains(parts, ':')
    requires partition != "" && account != "" && (service == "iam" || service == "sts")
    ensures ParseArn(WriteArn(partition, service, region, account, parts)) == ParseEntity(partition, account, parts)
  {
    JoinKeepsOut(parts, '/', ':');
    SplitJoin(parts, '/');
    var fields := ["arn", partition, service, region, account, Join(parts, '/')];
    assert NoneContains(fields, ':');
    SplitJoin(fields, ':');
  }

  /** Conversely, whatever the parser accepts is such a written ARN: the
      fields of the result are those of the input, and nothing else is accepted. */
  lemma ParseReadsFields(iamArn: string) returns (service: string, region: string, parts: seq<string>)
    requires ParseArn(iamArn).Ok?
    ensures var p := ParseArn(iamArn).value;
      && iamArn == WriteArn(p.partition, service, region, p.accountNumber, parts)
      && ColonFree(p.partition) && ColonFree(service) && ColonFree(region) && ColonFree(p.accountNumber)
      && |parts| >= 2 && NoneContains(parts, '/') && NoneContains(parts, ':')
      && p.partition != "" && p.accountNumber != "" && p.friendlyName != ""
      && (service == "iam" || service == "sts")
      && p.kind == parts[0]
      && (p.kind == ASSUMED_ROLE ==>
            |parts| >= 3 && p.path == "" && p.friendlyName == parts[1] && p.sessionInfo == parts[2])
      && (p.kind != ASSUMED_ROLE ==>
            && (p.kind == USER || p.kind == ROLE) && p.sessionInfo == ""
            && parts == [p.kind] + parts[1..|parts| - 1] + [p.friendlyName]
            && p.path == Join(parts[1..|parts| - 1], '/'))
  {
    var fullParts := Split(iamArn, ':');
    JoinSplit(iamArn, ':');
    service, region := fullParts[2], fullParts[3];
    parts := Split(fullParts[5], '/');
    JoinSplit(fullParts[5], '/');
    JoinKeepsOut(parts, '/', ':');
    assert fullParts == ["arn", fullParts[1], service, region, fullParts[4], Join(parts, '/')];
  }

  // What is accepted

  /** An assumed role with its name and session, or a user or role with a name, under
      any path. */
  predicate GoodParts(parts: seq<string>) {
    || (|parts| >= 3 && parts[0] == "assumed-role" && parts[1] != "")
    || (|parts| >= 2 && (parts[0] == "user" || parts[0] == "role") && parts[|parts| - 1] != "")
  }

  /** The string is the ARN of such a principal. */
  predicate IsArnOf(iamArn: string, partition: string, service: string, region: string, account: string,
      parts: seq<string>)
  {
    && iamArn == WriteArn(partition, service, region, account, parts)
    && ColonFree(partition) && ColonFree(service) && ColonFree(region) && ColonFree(account)
    && NoneContains(parts, '/') && NoneContains(parts, ':') && GoodParts(parts)
    && partition != "" && account != "" && (service == "iam" || service == "sts")
  }

  ghost predicate IsArn(iamArn: string) {
    exists partition, service, region, account, parts :: IsArnOf(iamArn, partition, service, region, account, parts)
  }

  /** The parser accepts exactly the ARNs of users, roles and assumed roles. */
  lemma AcceptsExactly(iamArn: string)
    ensures ParseArn(iamArn).Ok? <==> IsArn(iamArn)
  {
    if ParseArn(iamArn).Ok? {
      var p := ParseArn(iamArn).value;
      var service, region, parts := ParseReadsFields(iamArn);
      assert IsArnOf(iamArn, p.partition, service, region, p.accountNumber, parts);
    }
    if IsArn(iamArn) {
      var partition, service, region, account, parts :|
        IsArnOf(iamArn, partition, service, region, account, parts);
      ParseWritten(partition, service, region, account, parts);
    }
  }

  lemma JoinTwo(a: string, rest: seq<string>, sep: char)
    requires rest != []
    ensures Join([a] + rest, sep) == a + [sep] + Join(rest, sep)
  {
    assert ([a] + rest)[1..] == rest;
  }

  lemma JoinSix(a: string, b: string, c: string, d: string, e: string, f: string, sep: char)
    ensures Join([a, b, c, d, e, f], sep) == a + [sep] + (b + [sep] + (c + [sep] + (d + [sep] + (e + [sep] + f))))
  {
    assert [a] + [b, c, d, e, f] == [a, b, c, d, e, f] && [b] + [c, d, e, f] == [b, c, d, e, f];
    assert [c] + [d, e, f] == [c, d, e, f] && [d] + [e, f] == [d, e, f] && [e] + [f] == [e, f];
    JoinTwo(a, [b, c, d, e, f], sep);
    JoinTwo(b, [c, d, e, f], sep);
    JoinTwo(c, [d, e, f], sep);
    JoinTwo(d, [e, f], sep);
    JoinTwo(e, [f], sep);
  }

  lemma CanonicalIsWritten(p: ParsedArn)
    ensures CanonicalArn(p) == WriteArn(p.partition, "iam", "", p.accountNumber,
      [CanonicalKind(p.kind), p.friendlyName])
  {
    var parts := [CanonicalKind(p.kind), p.friendlyName];
    assert [CanonicalKind(p.kind)] + [p.friendlyName] == parts;
    JoinTwo(CanonicalKind(p.kind), [p.friendlyName], '/');
    var last := Join(parts, '/');
    JoinSix("arn", p.partition, "iam", "", p.accountNumber, last, ':');
    assert "arn:" == "arn" + [':'] && ":iam::" == [':'] + "iam" + [':'] + [':'] && ":" == [':'];
    Regroup("arn", p.partition, "iam", p.accountNumber, CanonicalKind(p.kind) + "/" + p.friendlyName, ':');
    assert last == CanonicalKind(p.kind) + "/" + p.friendlyName;
  }

  lemma Regroup(a: string, b: string, c: string, d: string, e: string, sep: char)
    ensures (a + [sep]) + b + ([sep] + c + [sep] + [sep]) + d + [sep] + e ==
      a + [sep] + (b + [sep] + (c + [sep] + ("" + [sep] + (d + [sep] + e))))
  {
  }

  /** The round trip: the canonical form of an accepted ARN is accepted, names
      the same principal without path or session, and is its own canonical form. */
  lemma CanonicalRoundTrip(iamArn: string)
    requires ParseArn(iamArn).Ok?
    ensures var p := ParseArn(iamArn).value;
      var again := ParseArn(CanonicalArn(p));
      && again == Ok(ParsedArn(p.partition, p.accountNumber, CanonicalKind(p.kind), "", p.friendlyName, ""))
      && CanonicalArn(again.value) == CanonicalArn(p)
  {
    var p := ParseArn(iamArn).value;
    var service, region, parts := ParseReadsFields(iamArn);
    var canonical := [CanonicalKind(p.kind), p.friendlyName];
    assert NoneContains(canonical, '/') && NoneContains(canonical, ':') by {
      assert p.friendlyName in parts && p.kind in parts;
    }
    CanonicalIsWritten(p);
    ParseWritten(p.partition, "iam", "", p.accountNumber, canonical);
    assert Join(canonical[1..|canonical| - 1], '/') == "";
  }

  /** Two accepted ARNs have the same canonical form exactly when they name the
      same partition, account, kind of principal and friendly name: dropping
      region, path and session is all that canonicalising forgets. */
  lemma CanonicalIdentifies(a: string, b: string)
    requires ParseArn(a).Ok? && ParseArn(b).Ok?
    ensures var p, q := ParseArn(a).value, ParseArn(b).value;
      CanonicalArn(p) == CanonicalArn(q) <==>
        (p.partition == q.partition && p.accountNumber == q.accountNumber &&
         CanonicalKind(p.kind) == CanonicalKind(q.kind) && p.friendlyName == q.friendlyName)
  {
    CanonicalRoundTrip(a);
    CanonicalRoundTrip(b);
  }
}
