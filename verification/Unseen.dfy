/** A history in which a Stable release carries an older build past a newer one: the
    nearest release is a Beta whose build of the component failed, so nothing is
    compared. */
module Unseen {
  import opened Text
  import opened Versions
  import opened Assemble
  import opened Recheck
  import opened Reuse
  import opened History
  import opened Promises
  import Build
  import Inputs
  import Plan

  // ---- two components of the release contract, as it lists them -------------------------

  const SERVER := Component("server", ServerImage, {Stable, Beta}, "server")
  const PREFIX := "tilecast-windows-"
  const RESTS := ["{version}-x86_64.msix", "update-x86_64.json", "update-x86_64.json.sig"]
  const SPECS := [AssetSpec(PREFIX + RESTS[0], "download"), AssetSpec(PREFIX + RESTS[1], "update"),
                  AssetSpec(PREFIX + RESTS[2], "signature")]
  const WINDOWS := Component("windows-x86_64", Player("windows", "x86_64", SPECS), {Stable}, "windows")
  const CONTRACT := Contract("ghcr.io/gbyo/tilecast-server", "https://github.com/gbyo/tilecast/releases/tag/",
                             [SERVER, WINDOWS])

  /** Version 0.minor.0, or its Beta of a slot below Stable's. */
  function MinorVersion(minor: nat, slot: nat): Version
    requires 26 <= minor < 1_000 && 1 <= slot <= STABLE_SLOT
  {
    var core := Core(0, minor, 0);
    Version(VersionName(core, slot), core.Code() * 100 + slot, Some(if slot == STABLE_SLOT then Stable else Beta), core)
  }

  lemma IsTagged(minor: nat, slot: nat)
    requires 26 <= minor < 1_000 && 1 <= slot <= STABLE_SLOT
    ensures ParseTag("v" + MinorVersion(minor, slot).name) == Some(MinorVersion(minor, slot))
  {
    hide ParseVersion, VersionName;
    NamesRoundTrip(Core(0, minor, 0), slot);
    var name := MinorVersion(minor, slot).name;
    assert ("v" + name)[1..] == name;
  }

  // ---- the names of its files -------------------------------------------------------------

  lemma {:induction false} ExpandPlain(prefix: string, rest: string, version: string)
    requires '{' !in prefix
    ensures Expand(prefix + rest, version) == prefix + Expand(rest, version)
  {
    if prefix == "" {
      assert prefix + rest == rest;
    } else {
      var name := prefix + rest;
      assert name[0] == prefix[0] && prefix[0] in prefix && name[1..] == prefix[1..] + rest;
      if |name| >= 9 {
        assert name[..9][0] == name[0];
      }
      ExpandPlain(prefix[1..], rest, version);
      ShortStays(name, rest, version);
    }
  }

  lemma ShortStays(name: string, rest: string, version: string)
    requires |rest| <= |name|
    ensures |name| < 9 ==> Expand(name, version) == name && Expand(rest, version) == rest
  {
  }

  lemma {:induction false} ExpandKeepsLine(name: string, version: string)
    requires '\n' !in name && '\n' !in version
    ensures '\n' !in Expand(name, version)
    decreases |name|
  {
    if |name| >= 9 {
      ExpandKeepsLine(if name[..9] == "{version}" then name[9..] else name[1..], version);
    }
  }

  lemma PlainPrefix()
    ensures |PREFIX| == 17 && PREFIX[0] == 't' && PREFIX[9] == 'w' && '{' !in PREFIX && '\n' !in PREFIX
    ensures INVENTORY[9] == 'r' && CHECKSUMS[0] == 'S'
  {
  }

  lemma PlainRest(i: nat)
    requires i < |RESTS|
    ensures '\n' !in RESTS[i]
  {
  }

  lemma WindowsName(version: string, i: nat)
    requires '\n' !in version && i < |SPECS|
    ensures SPECS[i].name == PREFIX + RESTS[i]
    ensures Expand(SPECS[i].name, version) == PREFIX + Expand(RESTS[i], version)
    ensures '\n' !in Expand(RESTS[i], version)
  {
    hide Expand;
    PlainPrefix();
    PlainRest(i);
    assert SPECS[i].name == PREFIX + RESTS[i];
    ExpandPlain(PREFIX, RESTS[i], version);
    ExpandKeepsLine(RESTS[i], version);
  }

  lemma PrefixedIsClean(prefix: string, rest: string)
    requires |prefix| == 17 && prefix[0] == 't' && prefix[9] == 'w' && '\n' !in prefix && '\n' !in rest
    ensures CleanName(prefix + rest) && prefix + rest != INVENTORY && prefix + rest != CHECKSUMS
  {
    var name := prefix + rest;
    assert name[0] == 't' && name[9] == 'w';
    PlainPrefix();
  }

  lemma IsWellFormed(version: string)
    requires '\n' !in version
    ensures WellFormed(CONTRACT, version)
  {
    hide CleanName;
    assert Names(SERVER, version) == [];
    forall name | name in Names(WINDOWS, version) ensures CleanName(name) && name != INVENTORY && name != CHECKSUMS {
      var i :| 0 <= i < |SPECS| && NamesOf(SPECS, version)[i] == name;
      WindowsName(version, i);
      PlainPrefix();
      PrefixedIsClean(PREFIX, Expand(RESTS[i], version));
    }
  }

  lemma VersionNameIsLine(minor: nat, slot: nat)
    requires 26 <= minor < 1_000 && 1 <= slot <= STABLE_SLOT
    ensures '\n' !in MinorVersion(minor, slot).name
  {
    assert Power(1) == 10 && Power(3) == 1_000;
    Powers();
    DecimalReads(0, 1, 10);
    DecimalReads(minor, 3, 1_000);
    DecimalReads(slot, 2, 100);
  }

  // ---- four runs --------------------------------------------------------------------------

  const PLATFORM := Platform("windows", "x86_64")

  function Never(path: string): bool { false }
  function Always(path: string): bool { true }
  function Everything(profile: string): Inputs.Rules { Inputs.Rules(Never, Always) }
  function NoImage(digest: string): Option<Annotations> { None }

  function ChannelOf(v: Version): Channel { if v.channel == Some(Beta) then Beta else Stable }

  function ReportOf(v: Version, windows: bool): Report {
    Report(v.name, ChannelOf(v), if windows then [Verified(PLATFORM, v.name, v.code, ChannelOf(v))] else [], [])
  }

  /** The verifier's report over a published release that holds the component. */
  function VerifiedAgain(tag: string): Report {
    match ParseTag(tag)
    case Some(v) => ReportOf(v, true)
    case None => Report(tag, Stable, [], [])
  }

  function FilesOf(version: string, build: string): Directory {
    map name | name in NamesOf(SPECS, version) :: Bytes(build)
  }

  function Digest(digit: char): string { "sha256:" + seq(64, _ => digit) }

  /** A run at a commit, with a Server image, and with the Windows files of one build
      or none. */
  function RunOf(v: Version, commit: string, reuse: bool, server: char, windows: Option<string>): Run {
    Run(CONTRACT, Everything, v.name, commit, reuse, {"server", "windows-x86_64"},
        Oracles(Always, VerifiedAgain, NoImage),
        match windows case Some(build) => FilesOf(v.name, build) case None => map[],
        ReportOf(v, windows.Some?), Digest(server))
  }

  function Draft(run: Run, v: Version, previous: Option<Version>, nearest: Option<Version>): Past {
    Past(run, v, previous, nearest, Inventory("", "", Stable, 0, "", [], []), map[])
  }

  function NextDraft(h: seq<Past>, run: Run, v: Version, k: nat): Past
    requires h != [] ==> k < |h|
  {
    if h == [] then Draft(run, v, None, None)
    else Draft(run, v, Some(h[k].version), Some(h[|h| - 1].version))
  }

  // ---- publishing one more ------------------------------------------------------------------

  /** The plan's ordering conditions for a run. */
  ghost predicate Due(h: seq<Past>, p: Past) {
    && (forall q | q in h :: q.Tag() != p.Tag())
    && Plan.MayPublish(VersionsOf(h), p.version)
    && Plan.IsNewest(Plan.Earlier(VersionsOf(h), p.version), Plan.Followed(p.version), p.previous)
    && Plan.IsNewest(Plan.Earlier(VersionsOf(h), p.version), None, p.nearest)
  }

  /** Releases published in rising order of code are due as long as they name the
      last one as the nearest. */
  lemma IsDue(h: seq<Past>, p: Past, k: nat)
    requires ParseTag(p.Tag()) == Some(p.version) && forall q | q in h :: ParseTag(q.Tag()) == Some(q.version)
    requires forall i, j | 0 <= i < j < |h| :: h[i].version.code < h[j].version.code
    requires forall q | q in h :: q.version.code < p.version.code
    requires h == [] ==> p.nearest == p.previous == None
    requires h != [] ==> k < |h| && p.nearest == Some(h[|h| - 1].version) && p.previous == Some(h[k].version)
    requires h != [] ==> Plan.Tracks(Plan.Followed(p.version), h[k].version)
    requires h != [] ==> forall q | q in h && Plan.Tracks(Plan.Followed(p.version), q.version) ::
      q.version.code <= h[k].version.code
    ensures Due(h, p)
  {
    hide ParseTag, Plan.Tracks;
    var earlier := Plan.Earlier(VersionsOf(h), p.version);
    if h != [] {
      assert h[|h| - 1] in h && h[k] in h;
      assert h[k].version in earlier && h[|h| - 1].version in earlier;
      forall v | v in earlier ensures v.code <= h[|h| - 1].version.code {
        var q :| 0 <= q < |h| && h[q].version == v;
      }
    }
    assert forall v :: Plan.Tracks(None, v) by { EverythingTracks(); }
  }

  lemma EverythingTracks()
    ensures forall v :: Plan.Tracks(None, v)
  {
  }

  /** A history so far: valid, and published in rising order of code. */
  ghost predicate Rising(w: World, h: seq<Past>) {
    && Valid(w, h) && DistinctTags(h)
    && (forall q | q in h :: ParseTag(q.Tag()) == Some(q.version))
    && (forall i, j | 0 <= i < j < |h| :: h[i].version.code < h[j].version.code)
  }

  lemma NothingYet(w: World)
    ensures Rising(w, [])
  {
  }

  lemma SameJob(w: World, h: seq<Past>, d: Past, p: Past)
    requires DistinctTags(h) && d.run == p.run && d.version == p.version && d.previous == p.previous
    requires d.nearest == p.nearest
    ensures JobOf(w, h, d) == JobOf(w, h, p) && (Due(h, d) ==> Due(h, p))
  {
  }

  /** A run that can be assembled is published, and lists what its statuses are. */
  lemma NextRelease(w: World, h: seq<Past>, run: Run, v: Version, k: nat) returns (p: Past)
    requires Rising(w, h) && run.contract == CONTRACT && run.version == v.name && run.commit != "" && '\n' !in v.name
    requires ParseTag("v" + v.name) == Some(v) && v.channel.Some?
    requires run.report == ReportOf(v, run.report.components != [])
    requires forall q | q in h :: q.version.code < v.code
    requires h == [] ==> k == 0
    requires h != [] ==> k < |h| && Plan.Tracks(Plan.Followed(v), h[k].version)
    requires h != [] ==> forall q | q in h && Plan.Tracks(Plan.Followed(v), q.version) ::
      q.version.code <= h[k].version.code
    requires Build.Buildable(w.m, JobOf(w, h, NextDraft(h, run, v, k)), run.assets)
    ensures p.run == run && p.version == v && Rising(w, h + [p]) && Publishes(w, h, p)
    ensures p.previous == NextDraft(h, run, v, k).previous && p.nearest == NextDraft(h, run, v, k).nearest
    ensures forall c | c in CONTRACT.components ::
      Status(w.m, JobOf(w, h, NextDraft(h, run, v, k)), v.code, run.assets, c) == Ok(EntryAt(p, c.id))
  {
    hide Valid, Status, JobOf, Due, ParseTag, Plan.Tracks, EntryAt, Build.Buildable, WellFormed, Assembled;
    var d := NextDraft(h, run, v, k);
    IsDue(h, d, k);
    IsWellFormed(v.name);
    RunsItsContract(w, h, d);
    var inventory, after := Build.Assemblable(w.m, JobOf(w, h, d), run.assets);
    p := d.(inventory := inventory, files := after);
    SameJob(w, h, d, p);
    Publish(w, h, p);
    hide Publishes;
    forall c | c in CONTRACT.components
      ensures Status(w.m, JobOf(w, h, p), v.code, run.assets, c) == Ok(EntryAt(p, c.id))
    {
      EntryStatus(w, h, p, c);
    }
    Extends(w, h, p);
  }

  lemma RunsItsContract(w: World, h: seq<Past>, p: Past)
    requires DistinctTags(h)
    ensures JobOf(w, h, p).contract == p.run.contract && JobOf(w, h, p).version == p.run.version
    ensures JobOf(w, h, p).serverDigest == p.run.serverDigest && JobOf(w, h, p).channel == p.Channel()
    ensures JobOf(w, h, p).report == p.run.report
  {
  }

  lemma Publish(w: World, h: seq<Past>, p: Past)
    requires DistinctTags(h) && Due(h, p) && ParseTag(p.Tag()) == Some(p.version) && p.run.commit != ""
    requires p.version.channel.Some? && p.run.version == p.version.name
    requires p.run.report == ReportOf(p.version, p.run.report.components != [])
    requires WellFormed(p.run.contract, p.run.version)
    requires Assembled(w.m, JobOf(w, h, p), p.run.assets, p.inventory, p.files)
    ensures Publishes(w, h, p)
  {
    hide Assembled, WellFormed, ParseTag, JobOf;
  }

  lemma Extends(w: World, h: seq<Past>, p: Past)
    requires Rising(w, h) && Publishes(w, h, p) && ParseTag(p.Tag()) == Some(p.version)
    requires forall q | q in h :: q.version.code < p.version.code && q.Tag() != p.Tag()
    ensures Rising(w, h + [p])
  {
    hide Publishes, ParseTag;
    assert (h + [p])[..|h|] == h;
  }

  // ---- three releases that build everything ---------------------------------------------------

  /** With reuse off, nothing is carried. */
  lemma ReuseOff(w: World, h: seq<Past>, p: Past, c: Component)
    requires DistinctTags(h) && p.run.contract == CONTRACT && !p.run.reuse && c in CONTRACT.components
    ensures !Carried(JobOf(w, h, p).plan, c.id)
  {
    hide CurrentOf;
    DecisionAt(w.m, p.run.o, ShelfOf(h), ContextOf(w, h, p), CONTRACT.components, c);
  }

  lemma ServerStatus(m: Meter, job: Job, code: nat, files: Directory)
    requires !Carried(job.plan, "server") && job.serverDigest != ""
    ensures var s := Status(m, job, code, files, SERVER);
      s.Ok? && s.value.Available? && s.value.origin.Built? && s.value.versionCode == Some(code)
  {
  }

  lemma WindowsStatus(m: Meter, job: Job, v: Version, windows: Option<string>)
    requires !Carried(job.plan, "windows-x86_64") && job.version == v.name && job.report == ReportOf(v, windows.Some?)
    ensures var files := match windows case Some(build) => FilesOf(v.name, build) case None => map[];
      var s := Status(m, job, v.code, files, WINDOWS);
      s.Ok? && (s.value.Available? <==> windows.Some?)
      && (windows.Some? ==> s.value.origin.Built?)
      && (windows.Some? ==> s.value.versionName == v.name && s.value.versionCode == Some(v.code))
  {
    hide Measure, Expand, Rejected;
    assert !Rejected(job.report, PLATFORM) by { NothingRejected(v, windows.Some?); }
  }

  lemma NothingRejected(v: Version, windows: bool)
    ensures !Rejected(ReportOf(v, windows), PLATFORM)
  {
  }

  lemma AllowedFiles(job: Job, v: Version, windows: Option<string>)
    requires job.contract == CONTRACT && job.version == v.name
    ensures (match windows case Some(build) => FilesOf(v.name, build) case None => map[]).Keys <= Allowed(job)
  {
    hide NamesOf;
    if windows.Some? {
      forall name | name in FilesOf(v.name, windows.value) ensures name in Allowed(job) {
        assert name in Names(WINDOWS, job.version) && WINDOWS in job.contract.components;
      }
    }
  }

  /** A run that carries nothing can be assembled, with the Windows build or, for a
      Beta, without. */
  lemma BuildsEverything(w: World, h: seq<Past>, p: Past, v: Version, commit: string, server: char,
                         windows: Option<string>)
    requires DistinctTags(h) && p.run == RunOf(v, commit, false, server, windows) && p.version == v
    requires ParseTag("v" + v.name) == Some(v) && v.channel.Some? && (windows.Some? || v.channel == Some(Beta))
    ensures Build.Buildable(w.m, JobOf(w, h, p), p.run.assets)
    ensures var s := Status(w.m, JobOf(w, h, p), v.code, p.run.assets, WINDOWS);
      s.Ok? && (s.value.Available? <==> windows.Some?)
      && (windows.Some? ==> s.value.origin.Built?)
      && (windows.Some? ==> s.value.versionName == v.name && s.value.versionCode == Some(v.code))
    ensures var s := Status(w.m, JobOf(w, h, p), v.code, p.run.assets, SERVER);
      s.Ok? && s.value.Available? && s.value.versionCode == Some(v.code)
  {
    hide JobOf, Status, ParseTag, NamesOf, FilesOf;
    var job := JobOf(w, h, p);
    RunsItsContract(w, h, p);
    ReuseOff(w, h, p, SERVER);
    ReuseOff(w, h, p, WINDOWS);
    ServerStatus(w.m, job, v.code, p.run.assets);
    WindowsStatus(w.m, job, v, windows);
    AllowedFiles(job, v, windows);
    assert v.channel.value == Stable || v.channel.value == Beta;
  }

  predicate BuildsWindows(p: Past) {
    BuiltAt(p, "windows-x86_64") && EntryAt(p, "windows-x86_64").versionName == p.version.name
    && EntryAt(p, "windows-x86_64").versionCode == Some(p.version.code)
  }

  /** A Stable whose Windows player is built, a Beta whose Windows player is built
      from a changed commit, and a Beta whose Windows build failed. */
  lemma ThreeReleases(w: World) returns (h: seq<Past>)
    ensures |h| == 3 && Rising(w, h)
    ensures h[0].version == MinorVersion(26, STABLE_SLOT) && h[1].version == MinorVersion(27, 1)
    ensures h[2].version == MinorVersion(27, 2)
    ensures h[0].run == RunOf(h[0].version, "first", false, '1', Some("one"))
    ensures h[1].run == RunOf(h[1].version, "second", false, '2', Some("two"))
    ensures h[2].run == RunOf(h[2].version, "third", false, '3', None)
    ensures forall i | 0 <= i < 3 ::
      Holds(h[i], "server") && EntryAt(h[i], "server").versionCode == Some(h[i].version.code)
    ensures BuildsWindows(h[0]) && BuildsWindows(h[1])
    ensures !Holds(h[2], "windows-x86_64")
  {
    hide Rising, JobOf, ParseTag, EntryAt, Status, Build.Buildable, RunOf, Publishes;
    var vs, va, vb := MinorVersion(26, STABLE_SLOT), MinorVersion(27, 1), MinorVersion(27, 2);
    NothingYet(w);
    h := [];
    assert DistinctTags(h) by { RisingTags(w, h); }
    var first := Next(w, h, vs, "first", '1', Some("one"), 26, STABLE_SLOT);
    h := [first];
    assert [] + [first] == h;
    var second := Next(w, h, va, "second", '2', Some("two"), 27, 1);
    h := [first, second];
    assert [first] + [second] == h;
    var third := Next(w, h, vb, "third", '3', None, 27, 2);
    assert [first, second] + [third] == [first, second, third];
    h := [first, second, third];
  }

  lemma RisingTags(w: World, h: seq<Past>)
    requires Rising(w, h)
    ensures DistinctTags(h)
  {
  }

  /** One more release that builds everything, following the newest it may. */
  lemma Next(w: World, h: seq<Past>, v: Version, commit: string, server: char, windows: Option<string>,
             minor: nat, slot: nat) returns (p: Past)
    requires Rising(w, h) && 26 <= minor < 1_000 && 1 <= slot <= STABLE_SLOT && v == MinorVersion(minor, slot)
    requires commit != "" && (windows.Some? || slot != STABLE_SLOT) && (slot == STABLE_SLOT ==> h == [])
    requires forall q | q in h :: q.version.code < v.code
    ensures p.run == RunOf(v, commit, false, server, windows) && p.version == v && Rising(w, h + [p])
    ensures Holds(p, "server") && EntryAt(p, "server").versionCode == Some(v.code)
    ensures Holds(p, "windows-x86_64") <==> windows.Some?
    ensures windows.Some? ==> BuildsWindows(p)
  {
    hide JobOf, ParseTag, EntryAt, Status, Build.Buildable, Publishes, Valid, FilesOf;
    var k := if h == [] then 0 else |h| - 1;
    var run := RunOf(v, commit, false, server, windows);
    IsTagged(minor, slot);
    VersionNameIsLine(minor, slot);
    var d := NextDraft(h, run, v, k);
    BuildsEverything(w, h, d, v, commit, server, windows);
    p := NextRelease(w, h, run, v, k);
    assert SERVER in CONTRACT.components && WINDOWS in CONTRACT.components;
  }

  // ---- a Stable that carries the first build past the second -----------------------------------

  /** The run follows `s`, and `n` is its nearest release; both are read as published. */
  ghost predicate FollowsPast(w: World, h: seq<Past>, p: Past, s: Past, n: Past)
    requires DistinctTags(h)
  {
    && TagOf(p.previous) == s.Tag() && TagOf(p.nearest) == n.Tag() && s.Tag() != n.Tag()
    && LoadRelease(w.m, p.run.o, ShelfOf(h), s.Tag())
      == Ok(Release(s.Tag(), s.inventory, w.m.sha256(Json(s.inventory))))
    && LoadRelease(w.m, p.run.o, ShelfOf(h), n.Tag())
      == Ok(Release(n.Tag(), n.inventory, w.m.sha256(Json(n.inventory))))
  }

  lemma ReadsBoth(w: World, h: seq<Past>, p: Past, v: Version, s: Past, n: Past)
    requires DistinctTags(h) && p.run == RunOf(v, "reverted", true, '4', None) && FollowsPast(w, h, p, s, n)
    ensures var ctx := ContextOf(w, h, p);
      && ctx.baseline == Some(Release(s.Tag(), s.inventory, w.m.sha256(Json(s.inventory))))
      && ctx.newest == Some(Release(n.Tag(), n.inventory, w.m.sha256(Json(n.inventory))))
      && ctx.channel == p.Channel() && ctx.pending == {"server", "windows-x86_64"} && !ctx.unavailable
      && ctx.current == CurrentOf(w, p.run, CONTRACT.components)
  {
    hide LoadRelease, InputsOf, CurrentOf, ShelfOf;
    CurrentAt(w, p.run, CONTRACT.components, SERVER);
    assert "server" in CurrentOf(w, p.run, CONTRACT.components).Keys * p.run.pending;
  }

  /** The nearest release holds a newer Server, so the Server is built. */
  lemma ServerIsBuilt(w: World, h: seq<Past>, p: Past, v: Version, s: Past, n: Past)
    requires DistinctTags(h) && p.run == RunOf(v, "reverted", true, '4', None) && FollowsPast(w, h, p, s, n)
    requires Holds(s, "server") && Holds(n, "server") && CodeAt(s, "server") < CodeAt(n, "server")
    ensures !Carried(JobOf(w, h, p).plan, "server")
  {
    hide LoadRelease, InputsOf, CurrentOf, ShelfOf, ContextOf, Unchanged, EntryCode;
    ReadsBoth(w, h, p, v, s, n);
    DecisionAt(w.m, p.run.o, ShelfOf(h), ContextOf(w, h, p), CONTRACT.components, SERVER);
    assert Candidate(ContextOf(w, h, p), SERVER).None?;
  }

  /** It holds no Windows player, so what lies before it is not looked at. */
  lemma WindowsIsCandidate(w: World, h: seq<Past>, p: Past, v: Version, s: Past, n: Past)
    requires DistinctTags(h) && p.run == RunOf(v, "reverted", true, '4', None) && FollowsPast(w, h, p, s, n)
    requires p.Channel() == Stable && !Holds(n, "windows-x86_64") && Holds(s, "windows-x86_64")
    requires EntryAt(s, "windows-x86_64").channel == Some(Stable)
    requires EntryAt(s, "windows-x86_64").inputs == Some(InputsOf(w, p.run, WINDOWS))
    ensures Candidate(ContextOf(w, h, p), WINDOWS) == Some(EntryAt(s, "windows-x86_64"))
  {
    hide LoadRelease, CurrentOf, ShelfOf, ContextOf, EntryCode;
    ReadsBoth(w, h, p, v, s, n);
    CurrentAt(w, p.run, CONTRACT.components, WINDOWS);
    HasDigest(w, p.run, WINDOWS);
    hide InputsOf;
  }

  lemma HasDigest(w: World, run: Run, c: Component)
    ensures InputsOf(w, run, c).schema == Inputs.SCHEMA && InputsOf(w, run, c).digest != ""
  {
  }

  lemma SameTree(w: World, a: Run, b: Run, c: Component)
    requires a.rules == b.rules && w.tree(a.commit) == w.tree(b.commit)
    ensures InputsOf(w, a, c) == InputsOf(w, b, c)
  {
  }

  /** The files the first Stable published still verify as what it recorded. */
  lemma StillVerifies(w: World, s: Past, entry: Entry)
    requires BuildsWindows(s) && entry == EntryAt(s, "windows-x86_64") && BuiltHere(w, s, WINDOWS, entry)
    requires ParseTag(s.Tag()) == Some(s.version) && s.run.version == s.version.name
    ensures PlayerFacts(w.m, s.files, WINDOWS, entry, VerifiedAgain(s.Tag())) == Ok(entry.payload)
  {
    hide Measure, ParseTag, EntryAt, Expand, InputsOf;
    NothingRejected(s.version, true);
    var assets := Measure(w.m, s.files, SPECS, s.run.version);
    MeasuredFiles(w.m, s.files, s.run.version);
    forall a | a in assets ensures SameBytes(a, FindAsset(assets, a.name)) {
      SameNameSameBytes(w.m, s.files, assets, a);
    }
  }

  lemma MeasuredFiles(m: Meter, files: Directory, version: string)
    requires forall name | name in NamesOf(SPECS, version) :: name in files
    ensures forall a | a in Measure(m, files, SPECS, version) ::
      a.name in files && a.size == m.size(files[a.name]) && a.sha256 == m.sha256(files[a.name])
  {
  }

  lemma OriginStands(m: Meter, o: Oracles, shelf: Shelf, s: Past, entry: Entry)
    requires o.fetched == Always && o.report == VerifiedAgain && s.Tag() in shelf && shelf[s.Tag()].files == s.files
    requires BuildsWindows(s) && entry == EntryAt(s, "windows-x86_64") && ReadInventory(s.files) == Some(s.inventory)
    requires INVENTORY in s.files && s.files[INVENTORY] == Json(s.inventory)
    requires PlayerFacts(m, s.files, WINDOWS, entry, VerifiedAgain(s.Tag())) == Ok(entry.payload)
    ensures VerifyOrigin(m, o, shelf, OriginRef(s.Tag(), s.inventory.commit, m.sha256(Json(s.inventory))), WINDOWS,
      entry)
         == Ok(entry.payload)
  {
    hide PlayerFacts, ReadInventory, EntryCode;
  }

  lemma WindowsIsCarried(w: World, h: seq<Past>, p: Past, v: Version)
    requires Rising(w, h) && |h| == 3 && p.run == RunOf(v, "reverted", true, '4', None) && p.Channel() == Stable
    requires FollowsPast(w, h, p, h[0], h[2]) && w.tree("reverted") == w.tree("first")
    requires h[0].run == RunOf(h[0].version, "first", false, '1', Some("one")) && h[0].version.channel == Some(Stable)
    requires BuildsWindows(h[0]) && !Holds(h[2], "windows-x86_64")
    ensures Carried(JobOf(w, h, p).plan, "windows-x86_64")
    ensures JobOf(w, h, p).plan.decisions["windows-x86_64"].versionCode == h[0].version.code
  {
    hide Valid, Publishes, LoadRelease, CurrentOf, ContextOf, Candidate, InputsOf, PlayerFacts, ParseTag, EntryAt,
      VerifyOrigin, BuiltHere, ShelfOf, Follows;
    var s, entry := h[0], EntryAt(h[0], "windows-x86_64");
    PrefixValid(w, h, 0);
    OwnInventory(w, h[..0], s);
    assert WINDOWS in CONTRACT.components;
    BuiltIsOwn(w, h[..0], s, WINDOWS);
    BuiltCode(w, s, WINDOWS);
    SameTree(w, s.run, p.run, WINDOWS);
    StillVerifies(w, s, entry);
    Shelved(h, 0);
    var j := Fetched(w, h, s.Tag());
    assert j == 0;
    OriginStands(w.m, p.run.o, ShelfOf(h), s, entry);
    WindowsIsCandidate(w, h, p, v, s, h[2]);
    ReadsBoth(w, h, p, v, s, h[2]);
    DecisionAt(w.m, p.run.o, ShelfOf(h), ContextOf(w, h, p), CONTRACT.components, WINDOWS);
  }

  lemma Shelved(h: seq<Past>, k: nat)
    requires DistinctTags(h) && k < |h|
    ensures h[k].Tag() in ShelfOf(h)
  {
    assert h[k] in h;
  }

  lemma Reads(w: World, h: seq<Past>, k: nat)
    requires Valid(w, h) && k < |h|
    ensures LoadRelease(w.m, Oracles(Always, VerifiedAgain, NoImage), ShelfOf(h), h[k].Tag())
      == Ok(Release(h[k].Tag(), h[k].inventory, w.m.sha256(Json(h[k].inventory))))
  {
    hide Publishes, Valid, ReadInventory;
    Tags(w, h);
    var j := Fetched(w, h, h[k].Tag());
    assert j == k;
    PrefixValid(w, h, k);
    OwnInventory(w, h[..k], h[k]);
  }

  lemma CarriedWindows(m: Meter, job: Job, code: nat)
    requires Carried(job.plan, "windows-x86_64")
    ensures Status(m, job, code, map[], WINDOWS) == Ok(InheritedEntry(job.plan.decisions["windows-x86_64"]))
  {
  }

  lemma NewServer(w: World, h: seq<Past>, p: Past, v: Version)
    requires DistinctTags(h) && p.run == RunOf(v, "reverted", true, '4', None) && p.version == v
    requires ParseTag("v" + v.name) == Some(v) && v.channel.Some?
    requires !Carried(JobOf(w, h, p).plan, "server") && Carried(JobOf(w, h, p).plan, "windows-x86_64")
    ensures Build.Buildable(w.m, JobOf(w, h, p), p.run.assets)
  {
    hide JobOf, Status, ParseTag;
    var job := JobOf(w, h, p);
    RunsItsContract(w, h, p);
    ServerStatus(w.m, job, v.code, map[]);
    CarriedWindows(w.m, job, v.code);
    assert v.channel.value == Stable || v.channel.value == Beta;
  }

  lemma FourthRelease(w: World, g: seq<Past>) returns (p: Past)
    requires w.tree("reverted") == w.tree("first")
    requires |g| == 3 && Rising(w, g)
    requires g[0].version == MinorVersion(26, STABLE_SLOT) && g[1].version == MinorVersion(27, 1)
    requires g[2].version == MinorVersion(27, 2)
    requires g[0].run == RunOf(g[0].version, "first", false, '1', Some("one"))
    requires Holds(g[0], "server") && Holds(g[2], "server") && CodeAt(g[0], "server") < CodeAt(g[2], "server")
    requires BuildsWindows(g[0]) && !Holds(g[2], "windows-x86_64")
    ensures p.version == MinorVersion(27, STABLE_SLOT) && p.run == RunOf(p.version, "reverted", true, '4', None)
    ensures Rising(w, g + [p]) && p.previous == Some(g[0].version) && p.nearest == Some(g[2].version)
    ensures Holds(p, "windows-x86_64") && EntryAt(p, "windows-x86_64").origin.Inherited?
    ensures CodeAt(p, "windows-x86_64") == g[0].version.code
  {
    hide JobOf, ParseTag, EntryAt, Status, Valid, LoadRelease, Build.Buildable, Publishes, RunOf, BuildsWindows;
    var v := MinorVersion(27, STABLE_SLOT);
    IsTagged(27, STABLE_SLOT);
    VersionNameIsLine(27, STABLE_SLOT);
    var run := RunOf(v, "reverted", true, '4', None);
    var d := NextDraft(g, run, v, 0);
    RunIs(v, "reverted", true, '4', None);
    ReadsPast(w, g, d);
    ServerIsBuilt(w, g, d, v, g[0], g[2]);
    WindowsIsCarried(w, g, d, v);
    NewServer(w, g, d, v);
    p := NextRelease(w, g, run, v, 0);
    CarriedWindows(w.m, JobOf(w, g, d), v.code);
    assert WINDOWS in CONTRACT.components;
  }

  lemma RunIs(v: Version, commit: string, reuse: bool, server: char, windows: Option<string>)
    ensures var run := RunOf(v, commit, reuse, server, windows);
      && run.contract == CONTRACT && run.version == v.name && run.commit == commit
      && run.o == Oracles(Always, VerifiedAgain, NoImage) && run.rules == Everything
      && run.report == ReportOf(v, run.report.components != [])
      && run.assets == match windows case Some(build) => FilesOf(v.name, build) case None => map[]
  {
  }

  lemma ReadsPast(w: World, g: seq<Past>, p: Past)
    requires Rising(w, g) && |g| == 3 && p.run.o == Oracles(Always, VerifiedAgain, NoImage)
    requires p.previous == Some(g[0].version) && p.nearest == Some(g[2].version)
    ensures FollowsPast(w, g, p, g[0], g[2])
  {
    hide Valid, LoadRelease, ParseTag, Publishes;
    Reads(w, g, 0);
    Reads(w, g, 2);
    assert g[0] in g && g[2] in g;
    TagIsNamed(g[0]);
    TagIsNamed(g[2]);
    assert g[0].Tag() != g[2].Tag();
  }

  lemma TagIsNamed(p: Past)
    requires ParseTag(p.Tag()) == Some(p.version)
    ensures p.Tag() == TagOf(Some(p.version))
  {
    hide ParseVersion;
  }

  /** The documented rule fails: a Stable at a commit that takes a change back follows
      the last Stable; the nearest release is a Beta whose Windows build failed, which
      a Beta may publish; and the Beta before that built a newer Windows player than
      the one carried forward. */
  lemma NewerBuildIsPassedOver(w: World) returns (h: seq<Past>)
    requires w.tree("reverted") == w.tree("first")
    ensures |h| == 4 && Valid(w, h)
    ensures h[0].run.contract == h[1].run.contract == h[2].run.contract == h[3].run.contract == CONTRACT
    ensures BuildsWindows(h[0]) && BuildsWindows(h[1]) && !Holds(h[2], "windows-x86_64")
    ensures Holds(h[3], "windows-x86_64")
    ensures EntryAt(h[3], "windows-x86_64").origin.Inherited? && h[3].previous == Some(h[0].version)
    ensures h[3].nearest == Some(h[2].version) && CodeAt(h[3], "windows-x86_64") < CodeAt(h[1], "windows-x86_64")
    ensures !NothingNewerBetween(h, 3, 0, "windows-x86_64")
    ensures h[0].version.channel == h[3].version.channel == Some(Stable)
    ensures h[1].version.channel == h[2].version.channel == Some(Beta)
    ensures forall i, j | 0 <= i < j < 4 :: h[i].version.code < h[j].version.code
    ensures h[0].run.assets == FilesOf(h[0].run.version, "one") && h[1].run.assets == FilesOf(h[1].run.version, "two")
    ensures h[0].run.commit == "first" && h[1].run.commit == "second" && h[0].run.rules == h[1].run.rules == Everything
  {
    hide Publishes, EntryAt, Valid, FilesOf, BuildsWindows, RunOf, CodeAt, Holds, Rising, NothingNewerBetween,
      VersionName;
    var g := ThreeReleases(w);
    ServersRise(g[0], g[2]);
    var fourth := FourthRelease(w, g);
    h := g + [fourth];
    assert h[0] == g[0] && h[1] == g[1] && h[2] == g[2] && h[3] == fourth;
    RisingSays(w, h);
    BuiltCodes(h[0]);
    BuiltCodes(h[1]);
    RunIs(h[0].version, "first", false, '1', Some("one"));
    RunIs(h[1].version, "second", false, '2', Some("two"));
    RunIs(h[2].version, "third", false, '3', None);
    RunIs(h[3].version, "reverted", true, '4', None);
    PassedOver(h);
  }

  lemma RisingSays(w: World, h: seq<Past>)
    requires Rising(w, h)
    ensures Valid(w, h) && forall i, j | 0 <= i < j < |h| :: h[i].version.code < h[j].version.code
  {
    hide Valid, ParseTag;
  }

  lemma PassedOver(h: seq<Past>)
    requires |h| == 4 && Holds(h[1], "windows-x86_64") && Holds(h[3], "windows-x86_64")
    requires h[0].version.code < h[1].version.code < h[3].version.code
    requires CodeAt(h[3], "windows-x86_64") < CodeAt(h[1], "windows-x86_64")
    ensures !NothingNewerBetween(h, 3, 0, "windows-x86_64")
  {
    hide Holds, CodeAt;
  }

  lemma ServersRise(s: Past, n: Past)
    requires Holds(s, "server") && Holds(n, "server") && s.version.code < n.version.code
    requires EntryAt(s, "server").versionCode == Some(s.version.code)
    requires EntryAt(n, "server").versionCode == Some(n.version.code)
    ensures CodeAt(s, "server") < CodeAt(n, "server")
  {
  }

  lemma BuiltCodes(p: Past)
    requires BuildsWindows(p)
    ensures Holds(p, "windows-x86_64") && CodeAt(p, "windows-x86_64") == p.version.code
  {
  }
}
