/** Build-input fingerprints (scripts/release/release_inputs.py): a digest per
    group of files, over a text that lists each counted file once. */
module Inputs {
  import opened Text

  const SCHEMA := 1
  const ROOT_GROUP := "(root)"
  const NESTED := ["apps", "packages"]

  /** A commit's tracked files: path to `mode:oid`. */
  type Files = map<string, string>

  /** Which paths a component is not built from, and which it is built from after all. */
  datatype Rules = Rules(exclude: string -> bool, keep: string -> bool)

  datatype Fingerprint = Fingerprint(schema: int, digest: string, component: string, groups: map<string, string>)

  /** SHA-256 and the canonical JSON texts it is applied to. */
  datatype Hashing = Hashing(sha256: string -> string, body: (string, map<string, string>) -> string)

  /** No two texts share a digest, and canonical JSON tells bodies apart. */
  ghost predicate CollisionFree(h: Hashing) {
    && (forall x, y :: h.sha256(x) == h.sha256(y) ==> x == y)
    && (forall c, d, g, k :: h.body(c, g) == h.body(d, k) ==> c == d && g == k)
  }

  // ---- which files count, and in which group ------------------------------------------

  predicate Counts(path: string, rules: Rules) {
    rules.keep(path) || !rules.exclude(path)
  }

  function Counted(rules: Rules, files: Files): Files {
    map path | path in files && Counts(path, rules) :: files[path]
  }

  /** The first directory of a path, or the first two under apps and packages. */
  function GroupOf(path: string): string {
    var first := Before(path, '/');
    if |first| == |path| then ROOT_GROUP
    else
      var rest := After(path, '/');
      var second := Before(rest, '/');
      if first in NESTED && |second| < |rest| then first + "/" + second else first
  }

  function InGroup(files: Files, group: string): Files {
    map path | path in files && GroupOf(path) == group :: files[path]
  }

  ghost function GroupsOf(files: Files): set<string> {
    set path | path in files :: GroupOf(path)
  }

  /** A file at the top is in the group of the root, one under apps or packages in that
      of its application or package, and any other in that of its first directory. */
  lemma GroupsAreDirectories(first: string, second: string, rest: string)
    requires '/' !in first && '/' !in second
    ensures GroupOf(first) == "(root)"
    ensures GroupOf(first + ['/'] + second) == first
    ensures GroupOf(first + ['/'] + (second + ['/'] + rest)) ==
      if first == "apps" || first == "packages" then first + "/" + second else first
  {
    hide Before, After;
    BeforeIsAll(first, '/');
    BeforeIsAll(second, '/');
    BeforeIsFirst(first, '/', second);
    BeforeIsFirst(second, '/', rest);
    BeforeIsFirst(first, '/', second + ['/'] + rest);
  }

  // ---- the text of a group -----------------------------------------------------------

  function Line(path: string, value: string): string {
    path + "\0" + value
  }

  function JoinLines(lines: seq<string>): string {
    if lines == [] then ""
    else if |lines| == 1 then lines[0]
    else lines[0] + "\n" + JoinLines(lines[1..])
  }

  function Lines(files: Files, paths: seq<string>): seq<string>
    requires forall path | path in paths :: path in files
  {
    if paths == [] then [] else [Line(paths[0], files[paths[0]])] + Lines(files, paths[1..])
  }

  ghost function GroupText(files: Files): string {
    var paths := Sorted(files.Keys);
    assert forall path | path in paths :: path in Elements(paths);
    JoinLines(Lines(files, paths))
  }

  ghost function GroupDigests(h: Hashing, counted: Files): map<string, string> {
    map group | group in GroupsOf(counted) :: h.sha256(GroupText(InGroup(counted, group)))
  }

  /** The fingerprint of a component whose contract entry is written `definition`. */
  ghost function FingerprintOf(h: Hashing, definition: string, counted: Files): Fingerprint {
    var groups := GroupDigests(h, counted);
    var component := h.sha256(definition);
    Fingerprint(SCHEMA, "sha256:" + h.sha256(h.body(component, groups)), component, groups)
  }

  // ---- the encoding is unambiguous -------------------------------------------------------

  /** What git guarantees of a listing: no NUL in a path, and a value that is a
      mode and an object id. A path may hold newlines. */
  ghost predicate GitListing(files: Files) {
    forall path | path in files :: '\0' !in path && '\0' !in files[path] && '\n' !in files[path]
  }

  /** Two listings that join to the same text are the same listing, even though a
      path may contain the separator between lines. */
  lemma {:induction false} JoinIsUnambiguous(a: Files, p: seq<string>, b: Files, q: seq<string>)
    requires GitListing(a) && GitListing(b)
    requires forall path | path in p :: path in a
    requires forall path | path in q :: path in b
    requires JoinLines(Lines(a, p)) == JoinLines(Lines(b, q))
    ensures p == q && forall path | path in p :: a[path] == b[path]
  {
    hide Lines, JoinLines;
    if p == [] || q == [] {
      JoinIsEmpty(a, p);
      JoinIsEmpty(b, q);
    } else {
      HeadsAgree(a, p, b, q);
      if |p| > 1 {
        TailsJoin(a, p, b, q);
        JoinIsUnambiguous(a, p[1..], b, q[1..]);
      }
      assert p == [p[0]] + p[1..] && q == [q[0]] + q[1..];
    }
  }

  lemma CleanAt(files: Files, paths: seq<string>)
    requires GitListing(files) && paths != [] && forall path | path in paths :: path in files
    ensures '\0' !in paths[0] && '\0' !in files[paths[0]] && '\n' !in files[paths[0]]
    ensures Tail(files, paths) == "" || Tail(files, paths)[0] == '\n'
    ensures Tail(files, paths) == "" <==> |paths| == 1
  {
  }

  lemma HeadsAgree(a: Files, p: seq<string>, b: Files, q: seq<string>)
    requires GitListing(a) && GitListing(b) && p != [] && q != []
    requires (forall path | path in p :: path in a) && forall path | path in q :: path in b
    requires JoinLines(Lines(a, p)) == JoinLines(Lines(b, q))
    ensures p[0] == q[0] && a[p[0]] == b[q[0]] && Tail(a, p) == Tail(b, q)
    ensures |p| == 1 <==> |q| == 1
  {
    hide Lines, JoinLines, Before, GitListing, Tail;
    HeadOfJoin(a, p);
    HeadOfJoin(b, q);
    CleanAt(a, p);
    CleanAt(b, q);
    var x, y := Tail(a, p), Tail(b, q);
    CutIsUnique(p[0], q[0], '\0', a[p[0]] + x, b[q[0]] + y);
    ValueEndsAtNewline(a[p[0]], x, b[q[0]], y);
  }

  lemma TailsJoin(a: Files, p: seq<string>, b: Files, q: seq<string>)
    requires |p| > 1 && q != []
    requires (forall path | path in p :: path in a) && forall path | path in q :: path in b
    requires Tail(a, p) == Tail(b, q)
    ensures |q| > 1 && JoinLines(Lines(a, p[1..])) == JoinLines(Lines(b, q[1..]))
  {
    hide Lines, JoinLines;
    assert Tail(a, p)[1..] == JoinLines(Lines(a, p[1..]));
    if |q| > 1 { assert Tail(b, q)[1..] == JoinLines(Lines(b, q[1..])); }
  }

  lemma ValueEndsAtNewline(v: string, x: string, w: string, y: string)
    requires '\n' !in v && '\n' !in w && v + x == w + y
    requires (x == "" || x[0] == '\n') && (y == "" || y[0] == '\n')
    ensures v == w && x == y
  {
    CutAtNewline(v, x);
    CutAtNewline(w, y);
    assert x == (v + x)[|v|..] && y == (w + y)[|w|..];
  }

  lemma CutAtNewline(v: string, x: string)
    requires '\n' !in v && (x == "" || x[0] == '\n')
    ensures Before(v + x, '\n') == v
  {
    hide Before, After;
    if x == "" {
      assert v + x == v;
      BeforeIsAll(v, '\n');
    } else {
      assert v + x == v + ['\n'] + x[1..];
      BeforeIsFirst(v, '\n', x[1..]);
    }
  }

  /** What follows the first line: nothing, or a newline and the other lines. */
  function Tail(files: Files, paths: seq<string>): string
    requires paths != [] && forall path | path in paths :: path in files
  {
    if |paths| == 1 then "" else "\n" + JoinLines(Lines(files, paths[1..]))
  }

  lemma {:induction false} HeadOfJoin(files: Files, paths: seq<string>)
    requires paths != [] && forall path | path in paths :: path in files
    ensures JoinLines(Lines(files, paths)) == paths[0] + ['\0'] + (files[paths[0]] + Tail(files, paths))
  {
    var path, rest := paths[0], Lines(files, paths[1..]);
    var lines := [Line(path, files[path])] + rest;
    assert Lines(files, paths) == lines && lines[1..] == rest;
    if |paths| == 1 {
      assert paths[1..] == [] && rest == [];
      assert files[path] + "" == files[path];
    } else {
      assert rest != [];
      assert JoinLines(lines) == Line(path, files[path]) + "\n" + JoinLines(rest);
    }
  }

  lemma {:induction false} JoinIsEmpty(files: Files, paths: seq<string>)
    requires forall path | path in paths :: path in files
    ensures JoinLines(Lines(files, paths)) == "" <==> paths == []
  {
    if paths != [] { HeadOfJoin(files, paths); }
  }

  lemma GroupTextIsUnambiguous(a: Files, b: Files)
    requires GitListing(a) && GitListing(b)
    ensures GroupText(a) == GroupText(b) <==> a == b
  {
    var p, q := Sorted(a.Keys), Sorted(b.Keys);
    assert forall path | path in p :: path in Elements(p);
    assert forall path | path in q :: path in Elements(q);
    if GroupText(a) == GroupText(b) {
      JoinIsUnambiguous(a, p, b, q);
      assert a.Keys == Elements(p) == b.Keys;
      forall path | path in a ensures a[path] == b[path] {
        assert path in Elements(p);
      }
      assert a == b;
    }
  }

  // ---- equal fingerprints mean equal inputs ------------------------------------------------

  ghost predicate SameGroup(a: Files, b: Files, group: string) {
    InGroup(a, group) == InGroup(b, group)
  }

  lemma GroupDigestsAgree(h: Hashing, a: Files, b: Files, group: string)
    requires CollisionFree(h) && GitListing(a) && GitListing(b)
    requires group in GroupsOf(a) && group in GroupsOf(b)
    ensures GroupDigests(h, a)[group] == GroupDigests(h, b)[group] <==> SameGroup(a, b, group)
  {
    GroupTextIsUnambiguous(InGroup(a, group), InGroup(b, group));
  }

  /** A group is listed exactly when it has a counted file, so an absent group and
      a changed one are both told apart from an unchanged one. */
  lemma GroupChanged(h: Hashing, a: Files, b: Files, group: string)
    requires CollisionFree(h) && GitListing(a) && GitListing(b)
    ensures Lookup(GroupDigests(h, a), group) == Lookup(GroupDigests(h, b), group) <==> SameGroup(a, b, group)
  {
    GroupIsListed(a, group);
    GroupIsListed(b, group);
    if group in GroupsOf(a) && group in GroupsOf(b) {
      GroupDigestsAgree(h, a, b, group);
    }
  }

  lemma GroupIsListed(files: Files, group: string)
    ensures group in GroupsOf(files) <==> InGroup(files, group) != map[]
  {
    if group in GroupsOf(files) {
      var path :| path in files && GroupOf(path) == group;
      assert path in InGroup(files, group);
    }
    if InGroup(files, group) != map[] {
      var path :| path in InGroup(files, group);
      assert path in files && GroupOf(path) == group;
    }
  }

  lemma GroupsMakeTheListing(a: Files, b: Files)
    requires forall group :: SameGroup(a, b, group)
    ensures a == b
  {
    forall path ensures (path in a <==> path in b) && (path in a ==> a[path] == b[path]) {
      assert SameGroup(a, b, GroupOf(path));
      assert path in a <==> path in InGroup(a, GroupOf(path));
      assert path in b <==> path in InGroup(b, GroupOf(path));
      assert path in a ==> InGroup(a, GroupOf(path))[path] == a[path];
      assert path in b ==> InGroup(b, GroupOf(path))[path] == b[path];
    }
  }

  /** Equal digests mean equal contract entries and equal counted files, and the
      converse: the digest is the identity of the build inputs. */
  lemma DigestIsIdentity(h: Hashing, d: string, a: Files, e: string, b: Files)
    requires CollisionFree(h) && GitListing(a) && GitListing(b)
    ensures FingerprintOf(h, d, a).digest == FingerprintOf(h, e, b).digest <==> d == e && a == b
  {
    var f, g := FingerprintOf(h, d, a), FingerprintOf(h, e, b);
    if f.digest == g.digest {
      assert f.digest[7..] == h.sha256(h.body(f.component, f.groups));
      assert g.digest[7..] == h.sha256(h.body(g.component, g.groups));
      assert f.groups == g.groups;
      forall group ensures SameGroup(a, b, group) {
        GroupChanged(h, a, b, group);
      }
      GroupsMakeTheListing(a, b);
    }
  }

  /** A file changes the digest exactly when it is not excluded, or is kept after all:
      the rest of a commit does not count. */
  lemma OnlyCountedFilesMatter(h: Hashing, d: string, a: Files, e: string, b: Files, rules: Rules)
    requires CollisionFree(h) && GitListing(a) && GitListing(b)
    ensures FingerprintOf(h, d, Counted(rules, a)).digest == FingerprintOf(h, e, Counted(rules, b)).digest <==>
      d == e && forall path | rules.keep(path) || !rules.exclude(path) :: Lookup(a, path) == Lookup(b, path)
  {
    DigestIsIdentity(h, d, Counted(rules, a), e, Counted(rules, b));
    hide FingerprintOf;
    if Counted(rules, a) == Counted(rules, b) {
      forall path | rules.keep(path) || !rules.exclude(path) ensures Lookup(a, path) == Lookup(b, path) {
        assert path in a <==> path in Counted(rules, a);
        assert path in b <==> path in Counted(rules, b);
        assert path in a ==> Counted(rules, a)[path] == a[path];
        assert path in b ==> Counted(rules, b)[path] == b[path];
      }
    }
    if forall path | rules.keep(path) || !rules.exclude(path) :: Lookup(a, path) == Lookup(b, path) {
      forall path ensures path in Counted(rules, a) <==> path in Counted(rules, b)
        ensures path in Counted(rules, a) ==> Counted(rules, a)[path] == Counted(rules, b)[path]
      {
        if rules.keep(path) || !rules.exclude(path) { assert Lookup(a, path) == Lookup(b, path); }
      }
      assert Counted(rules, a) == Counted(rules, b);
    }
  }

  function Lookup<K, V>(m: map<K, V>, key: K): Option<V> {
    if key in m then Some(m[key]) else None
  }

  // ---- the script -----------------------------------------------------------------------------

  /** The counted paths of one group, in listing order. */
  function Select(paths: seq<string>, rules: Rules, group: string): (chosen: seq<string>)
    ensures forall path | path in chosen :: path in paths
  {
    if paths == [] then []
    else
      var last := paths[|paths| - 1];
      Select(paths[..|paths| - 1], rules, group)
      + if Counts(last, rules) && GroupOf(last) == group then [last] else []
  }

  lemma {:induction false} SelectIsAscending(paths: seq<string>, rules: Rules, group: string)
    requires Ascending(paths)
    ensures Ascending(Select(paths, rules, group))
    ensures Elements(Select(paths, rules, group))
         == set path | path in paths && Counts(path, rules) && GroupOf(path) == group
  {
    if paths != [] {
      var front, last := paths[..|paths| - 1], paths[|paths| - 1];
      SelectIsAscending(front, rules, group);
      assert paths == front + [last];
      assert forall path | path in front :: Less(path, last);
      var picked := if Counts(last, rules) && GroupOf(last) == group then [last] else [];
      assert Elements(Select(front, rules, group) + picked) == Elements(Select(front, rules, group)) + Elements(picked);
    }
  }

  lemma {:induction false} LinesAppend(files: Files, paths: seq<string>, path: string)
    requires forall p | p in paths + [path] :: p in files
    ensures Lines(files, paths + [path]) == Lines(files, paths) + [Line(path, files[path])]
  {
    if paths == [] {
      assert Lines(files, []) == [] && [path][1..] == [];
    } else {
      assert (paths + [path])[1..] == paths[1..] + [path];
      LinesAppend(files, paths[1..], path);
    }
  }

  lemma {:induction false} LinesReadValues(a: Files, b: Files, paths: seq<string>)
    requires forall p | p in paths :: p in a && p in b && a[p] == b[p]
    ensures Lines(a, paths) == Lines(b, paths)
  {
    if paths != [] { LinesReadValues(a, b, paths[1..]); }
  }

  lemma SelectedText(rules: Rules, files: Files, paths: seq<string>, group: string)
    requires Ascending(paths) && Elements(paths) == files.Keys
    ensures var chosen := Select(paths, rules, group);
      && (forall path | path in chosen :: path in files)
      && JoinLines(Lines(files, chosen)) == GroupText(InGroup(Counted(rules, files), group))
      && (chosen != [] <==> group in GroupsOf(Counted(rules, files)))
  {
    var chosen, part := Select(paths, rules, group), InGroup(Counted(rules, files), group);
    assert forall path | path in paths :: path in Elements(paths);
    SelectIsAscending(paths, rules, group);
    assert Elements(chosen) == part.Keys;
    AscendingIsUnique(chosen, Sorted(part.Keys));
    assert forall path | path in chosen :: path in Elements(chosen);
    LinesReadValues(files, part, chosen);
    GroupIsListed(Counted(rules, files), group);
    EmptyElements(chosen);
  }

  /** What a group holds after some of the paths: the lines of those it selects. */
  ghost predicate Holds(rules: Rules, files: Files, paths: seq<string>, groups: map<string, seq<string>>, group: string)
    requires forall path | path in paths :: path in files
  {
    var chosen := Select(paths, rules, group);
    && (group in groups <==> chosen != [])
    && (group in groups ==> groups[group] == Lines(files, chosen))
  }

  lemma {:induction false} CollateOne(rules: Rules, files: Files, paths: seq<string>, path: string,
                                      groups: map<string, seq<string>>, group: string)
    requires (forall p | p in paths :: p in files) && path in files
    requires Holds(rules, files, paths, groups, group)
    ensures Holds(rules, files, paths + [path], Collate(rules, files, path, groups), group)
  {
    hide GroupOf;
    var longer := paths + [path];
    assert longer[..|longer| - 1] == paths && longer[|longer| - 1] == path;
    if Counts(path, rules) && GroupOf(path) == group {
      LinesAppend(files, Select(paths, rules, group), path);
      assert Lines(files, []) == [];
    } else {
      assert Select(longer, rules, group) == Select(paths, rules, group);
    }
  }

  /** `groups.setdefault(group_of(path), []).append(...)`, when the path counts. */
  function Collate(rules: Rules, files: Files, path: string, groups: map<string, seq<string>>): map<string, seq<string>>
    requires path in files
  {
    if Counts(path, rules) then
      var group := GroupOf(path);
      groups[group := (if group in groups then groups[group] else []) + [Line(path, files[path])]]
    else
      groups
  }

  /** Fills the groups file by file in path order, then digests each group. */
  method MakeFingerprint(h: Hashing, definition: string, rules: Rules, files: Files) returns (f: Fingerprint)
    ensures f == FingerprintOf(h, definition, Counted(rules, files))
  {
    hide GroupOf, Lines, GroupDigests, Collate;
    var paths := SortNames(files.Keys);
    assert forall path | path in paths :: path in Elements(paths);
    var groups: map<string, seq<string>> := map[];
    for i := 0 to |paths|
      invariant forall g :: Holds(rules, files, paths[..i], groups, g)
    {
      ghost var before, longer, was := paths[..i], paths[..i + 1], groups;
      assert longer == before + [paths[i]];
      groups := Collate(rules, files, paths[i], groups);
      forall g ensures Holds(rules, files, longer, groups, g) {
        CollateOne(rules, files, before, paths[i], was, g);
      }
    }
    assert paths[..|paths|] == paths;
    var digests := map g | g in groups :: h.sha256(JoinLines(groups[g]));
    CollatedDigests(h, rules, files, paths, groups, digests);
    var component := h.sha256(definition);
    f := Fingerprint(SCHEMA, "sha256:" + h.sha256(h.body(component, digests)), component, digests);
  }

  lemma {:induction false} CollatedDigests(h: Hashing, rules: Rules, files: Files, paths: seq<string>,
                        groups: map<string, seq<string>>, digests: map<string, string>)
    requires Ascending(paths) && Elements(paths) == files.Keys
    requires forall path | path in paths :: path in files
    requires forall g :: Holds(rules, files, paths, groups, g)
    requires digests.Keys == groups.Keys && forall g | g in groups :: digests[g] == h.sha256(JoinLines(groups[g]))
    ensures digests == GroupDigests(h, Counted(rules, files))
  {
    hide GroupText, Lines, Select, Counted;
    forall g ensures g in groups <==> g in GroupsOf(Counted(rules, files)) {
      assert Holds(rules, files, paths, groups, g);
      SelectedText(rules, files, paths, g);
    }
    forall g | g in groups ensures JoinLines(groups[g]) == GroupText(InGroup(Counted(rules, files), g)) {
      assert Holds(rules, files, paths, groups, g);
      SelectedText(rules, files, paths, g);
    }
  }

  datatype Change = NoRecord | ContractEntry | Group(name: string) | SomeInput

  /** What differs between a recorded fingerprint and the one of this commit. */
  method Differences(was: Option<Fingerprint>, now: Fingerprint) returns (names: seq<Change>)
    ensures was.None? || was.value.schema != SCHEMA || was.value.digest == "" ==> names == [NoRecord]
    ensures was.Some? && was.value.schema == SCHEMA && was.value.digest != "" ==>
      && (names == [] <==> was.value.digest == now.digest)
      && (was.value.digest != now.digest ==> Elements(names) == Reported(was.value, now))
    ensures InReportOrder(names)
  {
    if was.None? || was.value.schema != SCHEMA || was.value.digest == "" {
      return [NoRecord];
    }
    var old_ := was.value;
    if old_.digest == now.digest {
      return [];
    }
    names := [];
    if old_.component != now.component {
      names := [ContractEntry];
    }
    var groups := SortNames(old_.groups.Keys + now.groups.Keys);
    ghost var base := Elements(names);
    for i := 0 to |groups|
      invariant Elements(names) == base + set g | g in groups[..i] && GroupDiffers(old_, now, g) :: Group(g)
      invariant InReportOrder(names) && forall n | n in names :: n.Group? ==> n.name in groups[..i]
      invariant forall n | n in names :: n.Group? || n.ContractEntry?
    {
      assert groups[..i + 1] == groups[..i] + [groups[i]];
      forall n | n in names ensures ReportedBefore(n, Group(groups[i])) {
        if n.Group? {
          var j :| 0 <= j < i && groups[j] == n.name;
        }
      }
      if Lookup(old_.groups, groups[i]) != Lookup(now.groups, groups[i]) {
        names := names + [Group(groups[i])];
      }
    }
    assert groups[..|groups|] == groups;
    assert forall g | GroupDiffers(old_, now, g) :: g in Elements(groups);
    assert Elements(names) == Changes(old_, now);
    EmptyElements(names);
    if names == [] {
      names := [SomeInput];
    }
  }

  /** The contract entry is named first, then the groups in ascending order. */
  predicate ReportedBefore(a: Change, b: Change) {
    b.Group? && (a.ContractEntry? || (a.Group? && Less(a.name, b.name)))
  }

  ghost predicate InReportOrder(names: seq<Change>) {
    forall i, j | 0 <= i < j < |names| :: ReportedBefore(names[i], names[j])
  }

  predicate GroupDiffers(was: Fingerprint, now: Fingerprint, group: string) {
    Lookup(was.groups, group) != Lookup(now.groups, group)
  }

  /** The named parts of two fingerprints that differ. */
  ghost function Changes(was: Fingerprint, now: Fingerprint): set<Change> {
    (if was.component != now.component then {ContractEntry} else {})
    + set g | g in was.groups.Keys + now.groups.Keys && GroupDiffers(was, now, g) :: Group(g)
  }

  ghost function Reported(was: Fingerprint, now: Fingerprint): set<Change> {
    if Changes(was, now) == {} then {SomeInput} else Changes(was, now)
  }

  /** For fingerprints of two commits, a refused reuse names the contract entry
      exactly when it changed and a group exactly when its counted files did, and
      never falls back to an unnamed change. */
  lemma ReportedIsExact(h: Hashing, d: string, a: Files, e: string, b: Files)
    requires CollisionFree(h) && GitListing(a) && GitListing(b)
    requires FingerprintOf(h, d, a).digest != FingerprintOf(h, e, b).digest
    ensures var names := Reported(FingerprintOf(h, d, a), FingerprintOf(h, e, b));
      && SomeInput !in names && NoRecord !in names
      && (ContractEntry in names <==> d != e)
      && forall group :: Group(group) in names <==> !SameGroup(a, b, group)
  {
    hide CollisionFree, GitListing, FingerprintOf, Changes, SameGroup;
    DigestIsIdentity(h, d, a, e, b);
    ContractChange(h, d, a, e, b);
    var was, now := FingerprintOf(h, d, a), FingerprintOf(h, e, b);
    forall group ensures Group(group) in Changes(was, now) <==> !SameGroup(a, b, group) {
      GroupChange(h, d, a, e, b, group);
    }
    OnlyNamedParts(was, now);
    if a != b {
      var group := ChangedGroup(a, b);
      assert Group(group) in Changes(was, now);
    }
  }

  lemma OnlyNamedParts(was: Fingerprint, now: Fingerprint)
    ensures SomeInput !in Changes(was, now) && NoRecord !in Changes(was, now)
  {
  }

  lemma ContractChange(h: Hashing, d: string, a: Files, e: string, b: Files)
    requires CollisionFree(h)
    ensures ContractEntry in Changes(FingerprintOf(h, d, a), FingerprintOf(h, e, b)) <==> d != e
  {
  }

  lemma GroupChange(h: Hashing, d: string, a: Files, e: string, b: Files, group: string)
    requires CollisionFree(h) && GitListing(a) && GitListing(b)
    ensures Group(group) in Changes(FingerprintOf(h, d, a), FingerprintOf(h, e, b)) <==> !SameGroup(a, b, group)
  {
    GroupChanged(h, a, b, group);
  }

  lemma ChangedGroup(a: Files, b: Files) returns (group: string)
    requires a != b
    ensures !SameGroup(a, b, group)
  {
    assert !forall g :: SameGroup(a, b, g) by {
      if forall g :: SameGroup(a, b, g) { GroupsMakeTheListing(a, b); }
    }
    group :| !SameGroup(a, b, group);
  }
}
