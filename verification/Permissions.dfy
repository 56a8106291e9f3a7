/**
 Permission strings of delegated roles: checked and stored by the role administration
 (roles.controller.ts), read back at every request (jwt.strategy.ts) and decided upon
 by the permission guard.
 */
module Permissions {
  import opened Common

  const CATALOG: seq<string> := [
    "activity:read", "setting:write", "city:read", "city:write", "region:read", "region:write",
    "account:read", "account:write", "role:read", "role:write", "user:read", "user:write",
    "currency:read", "currency:write", "account-credit:read", "account-credit:write"
  ]

  const ADMINISTRATOR := 1

  // ----- splitting and joining at commas -----

  function Split(s: string): (r: seq<string>)
    ensures |r| >= 1
  {
    if s == "" then [""]
    else
      var rest := Split(s[1..]);
      if s[0] == ',' then [""] + rest else [[s[0]] + rest[0]] + rest[1..]
  }

  function Join(parts: seq<string>): string {
    if parts == [] then "" else if |parts| == 1 then parts[0] else parts[0] + "," + Join(parts[1..])
  }

  lemma {:induction false} PartsHaveNoComma(s: string)
    ensures forall p :: p in Split(s) ==> ',' !in p
  {
    if s != "" { PartsHaveNoComma(s[1..]); }
  }

  lemma {:induction false} SplitAtComma(part: string, rest: string)
    requires ',' !in part
    ensures Split(part) == [part]
    ensures Split(part + "," + rest) == [part] + Split(rest)
  {
    if part == "" {
      assert (part + "," + rest)[1..] == rest;
    } else {
      SplitAtComma(part[1..], rest);
      assert (part + "," + rest)[1..] == part[1..] + "," + rest;
      assert part == [part[0]] + part[1..];
    }
  }

  lemma {:induction false} SplitUndoesJoin(parts: seq<string>)
    requires parts != [] && forall p :: p in parts ==> ',' !in p
    ensures Split(Join(parts)) == parts
  {
    SplitAtComma(parts[0], Join(parts[1..]));
    if |parts| > 1 {
      SplitUndoesJoin(parts[1..]);
      assert parts == [parts[0]] + parts[1..];
    }
  }

  // ----- trimming -----

  // White space and line terminators of ECMAScript (sections 12.2 and 12.3).
  predicate Blank(c: char) {
    c in "\t\n\r " || c == '\U{000B}' || c == '\U{000C}' || c == '\U{00A0}' || c == '\U{FEFF}' || c == '\U{1680}' ||
    '\U{2000}' <= c <= '\U{200A}' || c == '\U{2028}' || c == '\U{2029}' || c == '\U{202F}' || c == '\U{205F}' ||
      c == '\U{3000}'
  }

  function Trim(s: string): string {
    if s == "" then ""
    else if Blank(s[0]) then Trim(s[1..])
    else if Blank(s[|s| - 1]) then Trim(s[..|s| - 1])
    else s
  }

  predicate Trimmed(s: string) {
    s != "" ==> !Blank(s[0]) && !Blank(s[|s| - 1])
  }

  // What is cut off at either end is blank, what is left starts and ends otherwise.
  lemma {:induction false} TrimCutsBlanks(s: string) returns (before: string, after: string)
    ensures s == before + Trim(s) + after && Trimmed(Trim(s))
    ensures forall c :: c in before || c in after ==> Blank(c)
  {
    if s == "" {
      before, after := "", "";
    } else if Blank(s[0]) {
      before, after := TrimCutsBlanks(s[1..]);
      assert s == [s[0]] + s[1..];
      before := [s[0]] + before;
    } else if Blank(s[|s| - 1]) {
      before, after := TrimCutsBlanks(s[..|s| - 1]);
      assert s == s[..|s| - 1] + [s[|s| - 1]];
      after := after + [s[|s| - 1]];
    } else {
      before, after := "", "";
    }
  }

  lemma {:induction false} TrimOfTrimmed(s: string)
    requires Trimmed(s)
    ensures Trim(s) == s
  {
  }

  // ----- the permissions a text names -----

  function TrimAll(parts: seq<string>): (r: seq<string>)
    ensures |r| == |parts| && forall i :: 0 <= i < |parts| ==> r[i] == Trim(parts[i])
  {
    seq(|parts|, i requires 0 <= i < |parts| => Trim(parts[i]))
  }

  function NonEmpty(parts: seq<string>): (r: seq<string>)
    ensures forall p :: p in r <==> p in parts && p != ""
  {
    if parts == [] then []
    else (if parts[0] == "" then [] else [parts[0]]) + NonEmpty(parts[1..])
  }

  // A Set filled in order and spread again.
  function Distinct(parts: seq<string>): (r: seq<string>)
    ensures forall p :: p in r <==> p in parts
  {
    if parts == [] then []
    else
      var r := Distinct(parts[..|parts| - 1]);
      assert parts == parts[..|parts| - 1] + [parts[|parts| - 1]];
      if parts[|parts| - 1] in r then r else r + [parts[|parts| - 1]]
  }

  function Named(resources: string): seq<string> {
    Distinct(NonEmpty(TrimAll(Split(resources))))
  }

  function FirstIndex(parts: seq<string>, p: string): (i: nat)
    requires p in parts
    ensures i < |parts| && parts[i] == p && p !in parts[..i]
  {
    if parts[0] == p then 0 else 1 + FirstIndex(parts[1..], p)
  }

  lemma {:induction false} FirstIndexOfPrefix(parts: seq<string>, last: string, p: string)
    requires p in parts
    ensures FirstIndex(parts + [last], p) == FirstIndex(parts, p)
  {
    if parts[0] != p {
      assert (parts + [last])[1..] == parts[1..] + [last];
      FirstIndexOfPrefix(parts[1..], last, p);
    }
  }

  lemma {:induction false} LastIndex(parts: seq<string>, last: string)
    requires last !in parts
    ensures FirstIndex(parts + [last], last) == |parts|
  {
    if parts != [] {
      assert (parts + [last])[1..] == parts[1..] + [last];
      LastIndex(parts[1..], last);
    }
  }

  // Each part once, in the order of first occurrence.
  ghost predicate InFirstOrder(r: seq<string>, parts: seq<string>) {
    && (forall i :: 0 <= i < |r| ==> r[i] in parts)
    && (forall i, j :: 0 <= i < j < |r| ==> r[i] != r[j] && FirstIndex(parts, r[i]) < FirstIndex(parts, r[j]))
  }

  lemma {:induction false} DistinctKeepsFirstOccurrences(parts: seq<string>)
    ensures InFirstOrder(Distinct(parts), parts)
  {
    if parts != [] {
      var front, last := parts[..|parts| - 1], parts[|parts| - 1];
      var r := Distinct(front);
      assert parts == front + [last];
      DistinctKeepsFirstOccurrences(front);
      forall i | 0 <= i < |r| ensures FirstIndex(parts, r[i]) == FirstIndex(front, r[i]) {
        assert r[i] in r;
        FirstIndexOfPrefix(front, last, r[i]);
      }
      if last !in r {
        LastIndex(front, last);
        assert forall i :: 0 <= i < |r| ==> FirstIndex(parts, r[i]) < |front|;
      }
    }
  }

  lemma {:induction false} DistinctIsIdempotent(parts: seq<string>)
    requires forall i, j :: 0 <= i < j < |parts| ==> parts[i] != parts[j]
    ensures Distinct(parts) == parts
  {
    if parts != [] {
      DistinctIsIdempotent(parts[..|parts| - 1]);
      assert parts == parts[..|parts| - 1] + [parts[|parts| - 1]];
    }
  }

  lemma {:induction false} NonEmptyKeepsAll(parts: seq<string>)
    requires "" !in parts
    ensures NonEmpty(parts) == parts
  {
    if parts != [] { NonEmptyKeepsAll(parts[1..]); }
  }

  // `RolesController.validate`: None stands for the rejection of an unknown permission.
  function Validate(resources: string, catalog: seq<string>): Option<string> {
    var permissions := Named(resources);
    if exists p :: p in permissions && p !in catalog then None else Some(Join(permissions))
  }

  // `JwtStrategy.validate`, the parsing of the stored text.
  function Parse(stored: string): seq<string> {
    NonEmpty(Split(stored))
  }

  // The text names the permission: it is one of the parts, trimmed.
  ghost predicate Names(resources: string, permission: string) {
    permission != "" && exists q :: q in Split(resources) && Trim(q) == permission
  }

  lemma TrimAllMembers(parts: seq<string>, p: string)
    ensures p in TrimAll(parts) <==> exists q :: q in parts && Trim(q) == p
  {
    var trimmed := TrimAll(parts);
    if p in trimmed {
      var i :| 0 <= i < |trimmed| && trimmed[i] == p;
      assert parts[i] in parts;
    }
    if q :| q in parts && Trim(q) == p {
      var i :| 0 <= i < |parts| && parts[i] == q;
      assert trimmed[i] == p;
    }
  }

  lemma NamedIffNames(resources: string, p: string)
    ensures p in Named(resources) <==> Names(resources, p)
  {
    TrimAllMembers(Split(resources), p);
  }

  lemma NamedAreProper(resources: string, p: string)
    requires p in Named(resources)
    ensures p != "" && ',' !in p && Trimmed(p)
  {
    NamedIffNames(resources, p);
    PartsHaveNoComma(resources);
    var q :| q in Split(resources) && Trim(q) == p;
    var before, after := TrimCutsBlanks(q);
    assert forall c :: c in p ==> c in q;
  }

  lemma {:induction false} ParseUndoesJoin(parts: seq<string>)
    requires forall p :: p in parts ==> p != "" && ',' !in p
    ensures Parse(Join(parts)) == parts
  {
    if parts == [] {
      assert Split("") == [""] && NonEmpty([""]) == [];
    } else {
      SplitUndoesJoin(parts);
      NonEmptyKeepsAll(parts);
    }
  }

  // Whatever text is accepted, the request later sees exactly the permissions it names,
  // each once, in the order of their first occurrence.
  lemma RoundTrip(resources: string, catalog: seq<string>)
    requires Validate(resources, catalog).Some?
    ensures Parse(Validate(resources, catalog).value) == Named(resources)
  {
    var permissions := Named(resources);
    forall p | p in permissions ensures p != "" && ',' !in p {
      NamedAreProper(resources, p);
    }
    ParseUndoesJoin(permissions);
  }

  lemma ParsedIffNames(resources: string, catalog: seq<string>, p: string)
    requires Validate(resources, catalog).Some?
    ensures p in Parse(Validate(resources, catalog).value) <==> Names(resources, p)
    ensures p in Parse(Validate(resources, catalog).value) ==> p in catalog
  {
    RoundTrip(resources, catalog);
    NamedIffNames(resources, p);
  }

  lemma ParsedInOrder(resources: string, catalog: seq<string>)
    requires Validate(resources, catalog).Some?
    ensures InFirstOrder(Parse(Validate(resources, catalog).value), NonEmpty(TrimAll(Split(resources))))
  {
    RoundTrip(resources, catalog);
    DistinctKeepsFirstOccurrences(NonEmpty(TrimAll(Split(resources))));
  }

  // A text is refused exactly when it names something outside the catalog.
  lemma RefusedIffUnknown(resources: string, catalog: seq<string>)
    ensures Validate(resources, catalog).None? <==> exists p :: Names(resources, p) && p !in catalog
  {
    forall p ensures p in Named(resources) <==> Names(resources, p) {
      NamedIffNames(resources, p);
    }
  }

  lemma {:induction false} NamedOfJoin(parts: seq<string>)
    requires forall p :: p in parts ==> p != "" && ',' !in p && Trimmed(p)
    requires forall i, j :: 0 <= i < j < |parts| ==> parts[i] != parts[j]
    ensures Named(Join(parts)) == parts
  {
    var split := Split(Join(parts));
    if parts == [] {
      assert split == [""];
      assert TrimAll([""]) == [""] && NonEmpty([""]) == [];
    } else {
      SplitUndoesJoin(parts);
      forall i | 0 <= i < |parts| ensures Trim(parts[i]) == parts[i] {
        TrimOfTrimmed(parts[i]);
      }
      assert TrimAll(split) == parts;
      NonEmptyKeepsAll(parts);
      DistinctIsIdempotent(parts);
    }
  }

  // Every choice of permissions from the catalog can be stored, as it is.
  lemma CatalogIsStorable(parts: seq<string>)
    requires forall p :: p in parts ==> p in CATALOG
    requires forall i, j :: 0 <= i < j < |parts| ==> parts[i] != parts[j]
    ensures Validate(Join(parts), CATALOG) == Some(Join(parts))
  {
    forall p | p in parts ensures p != "" && ',' !in p && Trimmed(p) {
      CatalogIsProper(p);
    }
    NamedOfJoin(parts);
  }

  // Letters, hyphens and the colon, at least one of them.
  predicate Plain(p: string) {
    p != "" && forall i :: 0 <= i < |p| ==> 'a' <= p[i] <= 'z' || p[i] == '-' || p[i] == ':'
  }

  lemma PlainIsProper(p: string)
    requires Plain(p)
    ensures p != "" && ',' !in p && Trimmed(p)
  {
  }

  lemma CatalogIsProper(p: string)
    requires p in CATALOG
    ensures p != "" && ',' !in p && Trimmed(p)
  {
    var i :| 0 <= i < |CATALOG| && CATALOG[i] == p;
    assert Plain(CATALOG[i]);
    PlainIsProper(p);
  }

  // Saving what is stored again changes nothing.
  lemma ValidateIsIdempotent(resources: string, catalog: seq<string>)
    requires Validate(resources, catalog).Some?
    ensures Validate(Validate(resources, catalog).value, catalog) == Validate(resources, catalog)
  {
    var permissions := Named(resources);
    forall p | p in permissions ensures p != "" && ',' !in p && Trimmed(p) {
      NamedAreProper(resources, p);
    }
    DistinctKeepsFirstOccurrences(NonEmpty(TrimAll(Split(resources))));
    NamedOfJoin(permissions);
  }

  // ----- the guard -----

  predicate EndsWith(s: string, suffix: string) {
    |s| >= |suffix| && s[|s| - |suffix|..] == suffix
  }

  function ReplaceFirst(s: string, target: string, with: string): string
    requires target != ""
  {
    if |s| < |target| then s
    else if target <= s then with + s[|target|..]
    else [s[0]] + ReplaceFirst(s[1..], target, with)
  }

  const RESERVED: set<string> := {"role:write", "user:write"}

  // `PermissionGuard.canActivate`; a handler without a declared permission is closed.
  predicate CanActivate(permission: Option<string>, roleId: Option<int>, permissions: Option<seq<string>>) {
    if permission.None? || permission.value == "" then false
    else if roleId != Some(ADMINISTRATOR) && permission.value in RESERVED then false
    else
      var resources := if permissions.Some? then permissions.value else [];
      || roleId == Some(ADMINISTRATOR)
      || permission.value in resources
      || (EndsWith(permission.value, ":read") && ReplaceFirst(permission.value, ":read", ":write") in resources)
  }

  lemma {:induction false} ReadBecomesWrite(subject: string)
    requires ':' !in subject
    ensures ReplaceFirst(subject + ":read", ":read", ":write") == subject + ":write"
    ensures EndsWith(subject + ":read", ":read")
  {
    var s := subject + ":read";
    if subject == "" {
      assert s[5..] == "";
    } else {
      assert s[0] == subject[0] != ':';
      assert s[1..] == subject[1..] + ":read";
      ReadBecomesWrite(subject[1..]);
      assert subject == [subject[0]] + subject[1..];
    }
  }

  // Whoever may write a subject may read it.
  lemma WriteImpliesRead(subject: string, roleId: Option<int>, permissions: Option<seq<string>>)
    requires ':' !in subject && CanActivate(Some(subject + ":write"), roleId, permissions)
    ensures CanActivate(Some(subject + ":read"), roleId, permissions)
  {
    ReadBecomesWrite(subject);
    assert EndsWith("role:write", ":write") && EndsWith("user:write", ":write");
    var read := subject + ":read";
    assert read[|read| - 1] == 'd';
    assert read !in RESERVED by { assert "role:write"[9] == 'e' && "user:write"[9] == 'e'; }
  }

  // For a delegated role, what it takes to pass, in terms of the text the role was
  // saved with: the order, repetition and spacing of its parts play no part.
  lemma DelegatedDecision(resources: string, catalog: seq<string>, permission: string, roleId: Option<int>)
    requires Validate(resources, catalog).Some? && roleId != Some(ADMINISTRATOR)
    ensures CanActivate(Some(permission), roleId, Some(Parse(Validate(resources, catalog).value))) <==>
              && permission !in RESERVED
              && (|| Names(resources, permission)
                  || (EndsWith(permission, ":read") && Names(resources, ReplaceFirst(permission, ":read", ":write"))))
  {
    ParsedIffNames(resources, catalog, permission);
    ParsedIffNames(resources, catalog, ReplaceFirst(permission, ":read", ":write"));
  }

  // Two texts naming the same permissions give the same decisions.
  lemma DecisionDependsOnTheSet(a: string, b: string, catalog: seq<string>, permission: Option<string>,
                                roleId: Option<int>)
    requires Validate(a, catalog).Some? && Validate(b, catalog).Some? && forall p :: Names(a, p) <==> Names(b, p)
    ensures CanActivate(permission, roleId, Some(Parse(Validate(a, catalog).value))) ==
            CanActivate(permission, roleId, Some(Parse(Validate(b, catalog).value)))
  {
    if permission.Some? && roleId != Some(ADMINISTRATOR) {
      DelegatedDecision(a, catalog, permission.value, roleId);
      DelegatedDecision(b, catalog, permission.value, roleId);
    }
  }

  // ----- who is asking -----

  datatype Session = Session(user: int, deleted: bool)

  datatype Account = Account(role: Option<int>, active: bool, deleted: bool)

  datatype Principal = Principal(user: int, session: int, role: int, permissions: seq<string>)

  const MAX_SAFE := 9007199254740991

  predicate SafeInteger(n: int) {
    -MAX_SAFE <= n <= MAX_SAFE
  }

  // `JwtStrategy.validate`: None stands for the refusal.
  function Authenticate(user: int, session: int, sessions: map<int, Session>, accounts: map<int, Account>,
                        roles: map<int, string>): Option<Principal> {
    if !SafeInteger(user) || !SafeInteger(session) then None
    else if session !in sessions || sessions[session].deleted || sessions[session].user != user then None
    else if user !in accounts || accounts[user].deleted || !accounts[user].active then None
    else if accounts[user].role.None? || accounts[user].role.value !in roles then None
    else Some(Principal(user, session, accounts[user].role.value, Parse(roles[accounts[user].role.value])))
  }

  // Who is let in at all, and as whom: the owner of a live session whose account is active
  // and has an existing role, with that role and what it was saved with.
  lemma AuthenticatedExactly(user: int, session: int, sessions: map<int, Session>, accounts: map<int, Account>,
                             roles: map<int, string>)
    ensures var p := Authenticate(user, session, sessions, accounts, roles);
            && (p.Some? <==>
                && -0x1F_FFFF_FFFF_FFFF <= user <= 0x1F_FFFF_FFFF_FFFF
                && -0x1F_FFFF_FFFF_FFFF <= session <= 0x1F_FFFF_FFFF_FFFF
                && session in sessions && !sessions[session].deleted && sessions[session].user == user
                && user in accounts && accounts[user].active && !accounts[user].deleted
                && accounts[user].role.Some? && accounts[user].role.value in roles)
            && (p.Some? ==>
                && p.value.user == user && p.value.session == session && Some(p.value.role) == accounts[user].role
                && p.value.permissions == Parse(roles[p.value.role]))
  {
  }

  lemma ReservedMeans(permission: string)
    ensures permission in RESERVED <==> permission == "role:write" || permission == "user:write"
  {
  }

  lemma GuardDecision(resources: string, catalog: seq<string>, permission: string, role: int, permissions: seq<string>)
    requires role != ADMINISTRATOR ==>
               Validate(resources, catalog).Some? && permissions == Parse(Validate(resources, catalog).value)
    ensures CanActivate(Some(permission), Some(role), Some(permissions)) <==>
              && permission != ""
              && (|| role == 1
                  || (&& permission != "role:write" && permission != "user:write"
                      && (|| Names(resources, permission)
                          || (&& |permission| >= 5 && permission[|permission| - 5..] == ":read"
                              && Names(resources, ReplaceFirst(permission, ":read", ":write"))))))
  {
    hide Validate, Parse, ReplaceFirst, Names;
    ReservedMeans(permission);
    hide RESERVED;
    if role != ADMINISTRATOR {
      DelegatedDecision(resources, catalog, permission, Some(role));
    }
  }

  // A request gets through with a permission exactly over a live session of an active
  // account, and then as an administrator with every permission there is, otherwise with
  // an unreserved one that the role was last saved with, itself or as the right to write.
  lemma RequestIsEntitled(user: int, session: int, sessions: map<int, Session>, accounts: map<int, Account>,
                          roles: map<int, string>,
                          resources: string, catalog: seq<string>, permission: string)
    requires user in accounts && accounts[user].role.Some? && accounts[user].role.value in roles &&
             accounts[user].role.value != ADMINISTRATOR ==>
               Validate(resources, catalog) == Some(roles[accounts[user].role.value])
    ensures var p := Authenticate(user, session, sessions, accounts, roles);
            p.Some? && CanActivate(Some(permission), Some(p.value.role), Some(p.value.permissions)) <==>
              && p.Some? && permission != ""
              && (|| accounts[user].role == Some(1)
                  || (&& permission != "role:write" && permission != "user:write"
                      && (|| Names(resources, permission)
                          || (&& |permission| >= 5 && permission[|permission| - 5..] == ":read"
                              && Names(resources, ReplaceFirst(permission, ":read", ":write"))))))
  {
    hide Authenticate, CanActivate, Validate, Parse, Names, ReplaceFirst;
    AuthenticatedExactly(user, session, sessions, accounts, roles);
    var p := Authenticate(user, session, sessions, accounts, roles);
    if p.Some? {
      GuardDecision(resources, catalog, permission, p.value.role, p.value.permissions);
    }
  }
}
