/** The coordinated releases as one growing history. Each release is planned
    against the ones before it, decides what to carry forward from them, is
    assembled, and is published; nothing published changes afterwards. */
module History {
  import opened Text
  import opened Versions
  import opened Assemble
  import opened Recheck
  import opened Reuse
  import Inputs
  import Plan
  import Build

  /** What does not change from release to release: how files are measured and
      texts hashed, what a commit's tree is, and the canonical text of a contract
      entry. */
  datatype World = World(m: Meter, h: Inputs.Hashing, tree: string -> Inputs.Files, canonical: Component -> string)

  ghost predicate Sane(w: World) {
    && HexDigests(w.m) && Inputs.CollisionFree(w.h)
    && (forall commit :: Inputs.GitListing(w.tree(commit)))
    && (forall c, d :: w.canonical(c) == w.canonical(d) ==> c == d)
  }

  /** Everything one run of the release workflow chooses or is told: the version and
      commit dispatched, what a resumed draft left pending, whether reuse is on,
      what the outside answers, the collected directory and its report. */
  datatype Run = Run(contract: Contract, rules: string -> Inputs.Rules, version: string, commit: string,
                     reuse: bool, pending: set<string>, o: Oracles,
                     assets: Directory, report: Report, serverDigest: string)

  /** A published release: its run, its place in the order, and what it published. */
  datatype Past = Past(run: Run, version: Version, previous: Option<Version>, nearest: Option<Version>,
                       inventory: Inventory, files: Directory) {
    function Tag(): string { "v" + run.version }
    function Channel(): Channel { if version.channel == Some(Beta) then Beta else Stable }
  }

  function TagOf(version: Option<Version>): string {
    match version case Some(v) => "v" + v.name case None => ""
  }

  ghost function VersionsOf(h: seq<Past>): set<Version> { set p | p in h :: p.version }

  ghost function ShelfOf(h: seq<Past>): Shelf
    requires DistinctTags(h)
  {
    map p | p in h :: p.Tag() := Publication(p.run.commit, p.files)
  }

  ghost predicate DistinctTags(h: seq<Past>) {
    forall i, j | 0 <= i < |h| && 0 <= j < |h| && h[i].Tag() == h[j].Tag() :: i == j
  }

  /** The fingerprint of a component at a run's commit. */
  ghost function InputsOf(w: World, run: Run, c: Component): Inputs.Fingerprint {
    Inputs.FingerprintOf(w.h, w.canonical(c), Inputs.Counted(run.rules(c.profile), w.tree(run.commit)))
  }

  ghost function CurrentOf(w: World, run: Run, components: seq<Component>): map<string, Inputs.Fingerprint> {
    if components == [] then map[]
    else
      var c := components[|components| - 1];
      CurrentOf(w, run, components[..|components| - 1])[c.id := InputsOf(w, run, c)]
  }

  ghost function ContextOf(w: World, h: seq<Past>, p: Past): Context
    requires DistinctTags(h)
  {
    PlanContext(w.m, p.run.o, ShelfOf(h), p.run.contract, p.Channel(), CurrentOf(w, p.run, p.run.contract.components),
                p.run.pending, p.run.reuse, TagOf(p.previous), TagOf(p.nearest))
  }

  ghost function JobOf(w: World, h: seq<Past>, p: Past): Job
    requires DistinctTags(h)
  {
    var components := p.run.contract.components;
    Job(p.run.contract, p.run.version, p.Channel(), p.run.commit, p.run.report, p.run.serverDigest,
        ReusePlan(DecisionsOf(w.m, p.run.o, ShelfOf(h), ContextOf(w, h, p), components), CurrentOf(w, p.run,
          components)))
  }

  /** The verifier reports what it was asked about: its manifests carry the
      version, code and channel of the release. */
  ghost predicate ReportsItself(p: Past) {
    forall v | v in p.run.report.components ::
      v.versionName == p.run.version && v.versionCode == p.version.code && v.channel == p.Channel()
  }

  /** A run that the plan lets publish, assembled from its own plan. */
  ghost predicate Publishes(w: World, h: seq<Past>, p: Past)
    requires DistinctTags(h)
  {
    && ParseTag(p.Tag()) == Some(p.version) && p.run.commit != ""
    && (forall q | q in h :: q.Tag() != p.Tag())
    && Plan.MayPublish(VersionsOf(h), p.version)
    && Plan.IsNewest(Plan.Earlier(VersionsOf(h), p.version), Plan.Followed(p.version), p.previous)
    && Plan.IsNewest(Plan.Earlier(VersionsOf(h), p.version), None, p.nearest)
    && WellFormed(p.run.contract, p.run.version) && ReportsItself(p)
    && Assembled(w.m, JobOf(w, h, p), p.run.assets, p.inventory, p.files)
  }

  ghost predicate Valid(w: World, h: seq<Past>) {
    DistinctTags(h) &&
    (h != [] ==> Valid(w, h[..|h| - 1]) && Publishes(w, h[..|h| - 1], h[|h| - 1]))
  }

  // ---- what a published entry says -------------------------------------------------------

  function EntryAt(p: Past, id: string): Entry {
    match FindItem(p.inventory.components, id)
    case Some(item) => item.entry
    case None => Unavailable
  }

  /** A built entry is the release's own: its version, code and channel, and the
      inputs at its commit; a player's assets are the files it published. */
  ghost predicate BuiltHere(w: World, p: Past, c: Component, e: Entry)
    requires e.Available?
  {
    && e.versionName == p.run.version && e.versionCode == Some(p.version.code) && e.channel == Some(p.Channel())
    && e.inputs == Some(InputsOf(w, p.run, c))
    && match c.kind
       case ServerImage => e.payload.Image? && e.payload.tag == p.run.version
       case Player(_, _, specs) =>
         && (forall name | name in NamesOf(specs, p.run.version) :: name in p.files)
         && e.payload == Assets(Measure(w.m, p.files, specs, p.run.version))
  }

  /** Two payloads are the same files, or the same image under the same tag. */
  predicate SamePayload(a: Payload, b: Payload) {
    match (a, b)
    case (Assets(x), Assets(y)) => x == y
    case (Image(_, s, d), Image(_, t, e)) => s == t && d == e
    case _ => false
  }

  /** An inherited entry repeats what an earlier release built itself. */
  ghost predicate SuppliedBy(w: World, e: Entry, q: Past, c: Component)
    requires e.Available? && e.origin.Inherited?
  {
    var source, built := e.origin.source, EntryAt(q, c.id);
    && source.tag == q.Tag() && source.commit == q.run.commit && source.inventorySha256 == w.m.sha256(Json(q.inventory))
    && c in q.run.contract.components
    && built.Available? && built.origin.Built? && BuiltHere(w, q, c, built)
    && e.versionName == built.versionName && e.versionCode == built.versionCode && e.channel == built.channel
    && e.inputs == built.inputs && SamePayload(e.payload, built.payload)
  }

  /** Every entry of a release is either its own or some earlier release's own. */
  ghost predicate Grounded(w: World, h: seq<Past>, i: nat, c: Component)
    requires i < |h|
  {
    var e := EntryAt(h[i], c.id);
    e.Available? ==>
      if e.origin.Built? then BuiltHere(w, h[i], c, e)
      else exists j | 0 <= j < i :: SuppliedBy(w, e, h[j], c)
  }

  /** No entry is newer than its release, and a Stable release holds Stable builds. */
  ghost predicate NoDowngrade(p: Past, e: Entry) {
    e.Available? ==>
      && e.versionCode.Some? && 0 <= e.versionCode.value <= p.version.code
      && e.channel.Some? && (e.channel == Some(Stable) || p.version.channel == Some(Beta))
  }

  ghost predicate Inv(w: World, h: seq<Past>) {
    forall i, c | 0 <= i < |h| && c in h[i].run.contract.components ::
      Grounded(w, h, i, c) && NoDowngrade(h[i], EntryAt(h[i], c.id))
  }

  lemma Tags(w: World, h: seq<Past>)
    requires Valid(w, h)
    ensures DistinctTags(h)
  {
  }

  // ---- reading a valid history -----------------------------------------------------------

  lemma {:induction false} PrefixValid(w: World, h: seq<Past>, k: nat)
    requires Valid(w, h) && k < |h|
    ensures Valid(w, h[..k]) && Publishes(w, h[..k], h[k])
    decreases |h|
  {
    hide Publishes;
    var front := h[..|h| - 1];
    if k == |h| - 1 {
      assert h[..k] == front;
    } else {
      assert front[..k] == h[..k];
      PrefixValid(w, front, k);
    }
  }

  /** A published release is fetched as it was published. */
  lemma Fetched(w: World, h: seq<Past>, tag: string) returns (k: nat)
    requires Valid(w, h) && tag in ShelfOf(h)
    ensures k < |h| && h[k].Tag() == tag && ShelfOf(h)[tag] == Publication(h[k].run.commit, h[k].files)
    ensures ReadInventory(h[k].files) == Some(h[k].inventory)
    ensures h[k].inventory.tag == tag && h[k].inventory.commit == h[k].run.commit != ""
  {
    hide Publishes;
    k :| 0 <= k < |h| && h[k].Tag() == tag;
    assert forall p | p in h && p.Tag() == tag :: p == h[k];
    PrefixValid(w, h, k);
    OwnInventory(w, h[..k], h[k]);
  }

  lemma OwnInventory(w: World, h: seq<Past>, p: Past)
    requires DistinctTags(h) && Publishes(w, h, p)
    ensures INVENTORY in p.files && p.files[INVENTORY] == Json(p.inventory)
    ensures p.inventory.tag == p.Tag() && p.inventory.commit == p.run.commit != ""
    ensures p.inventory.versionCode == p.version.code
  {
    hide Kept, ChecksumText, ListsAll, Records, Consistent, DecisionsOf, CurrentOf, ContextOf, ParseTag;
  }

  /** A release read as a baseline is one of the history. */
  lemma Loaded(w: World, h: seq<Past>, o: Oracles, tag: string) returns (k: nat)
    requires Valid(w, h) && LoadRelease(w.m, o, ShelfOf(h), tag).Ok?
    ensures k < |h| && h[k].Tag() == tag
    ensures LoadRelease(w.m, o, ShelfOf(h), tag).value
         == Release(tag, h[k].inventory, w.m.sha256(Json(h[k].inventory)))
  {
    hide Valid, ShelfOf;
    k := Fetched(w, h, tag);
    assert h[k].files[INVENTORY] == Json(h[k].inventory);
  }

  lemma {:induction false} CurrentAt(w: World, run: Run, components: seq<Component>, c: Component)
    requires c in components && DistinctIds(components)
    ensures c.id in CurrentOf(w, run, components) && CurrentOf(w, run, components)[c.id] == InputsOf(w, run, c)
  {
    hide InputsOf;
    var n := |components| - 1;
    if components[n] != c {
      var front := components[..n];
      var i :| 0 <= i < |components| && components[i] == c;
      assert front[i] == c;
      CurrentAt(w, run, front, c);
    }
  }

  /** The inventory lists each contract component once, with its status. */
  lemma ListedAt(w: World, h: seq<Past>, p: Past, c: Component) returns (item: Item)
    requires DistinctTags(h) && Publishes(w, h, p) && c in p.run.contract.components
    ensures item in p.inventory.components && FindItem(p.inventory.components, c.id) == Some(item)
    ensures Lists(w.m, JobOf(w, h, p), p.version.code, p.run.assets, c, item)
    ensures EntryAt(p, c.id) == item.entry
  {
    hide Status, Kept, ChecksumText, Records, Names, DecisionsOf, CurrentOf, ContextOf;
    var components, items := p.run.contract.components, p.inventory.components;
    var i :| 0 <= i < |components| && components[i] == c;
    forall j | 0 <= j < |items| && items[j].id == items[i].id ensures j == i {
      assert Lists(w.m, JobOf(w, h, p), p.version.code, p.run.assets, components[j], items[j]);
    }
    Build.FindById(items, i);
    item := items[i];
  }

  lemma ComponentOf(w: World, h: seq<Past>, p: Past, id: string) returns (c: Component)
    requires DistinctTags(h) && Publishes(w, h, p) && EntryAt(p, id).Available?
    ensures c in p.run.contract.components && c.id == id
  {
    hide Status, Kept, ChecksumText, Records, Names, DecisionsOf, CurrentOf, ContextOf;
    var items := p.inventory.components;
    FoundInside(items, id);
    var i :| 0 <= i < |items| && items[i].id == id;
    c := p.run.contract.components[i];
    assert Lists(w.m, JobOf(w, h, p), p.version.code, p.run.assets, c, items[i]);
  }

  lemma {:induction false} FoundInside(items: seq<Item>, id: string)
    requires FindItem(items, id).Some?
    ensures exists i | 0 <= i < |items| :: items[i].id == id
  {
    if items[0].id != id {
      FoundInside(items[1..], id);
      var i :| 0 <= i < |items[1..]| && items[1..][i].id == id;
      assert items[i + 1].id == id;
    }
  }

  /** What an entry is, from how it was decided. */
  lemma EntryStatus(w: World, h: seq<Past>, p: Past, c: Component)
    requires DistinctTags(h) && Publishes(w, h, p) && c in p.run.contract.components
    ensures Status(w.m, JobOf(w, h, p), p.version.code, p.run.assets, c) == Ok(EntryAt(p, c.id))
    ensures c.id in JobOf(w, h, p).plan.decisions
    ensures JobOf(w, h, p).plan.decisions[c.id] == DecideOne(w.m, p.run.o, ShelfOf(h), ContextOf(w, h, p), c)
    ensures Inputs.Lookup(JobOf(w, h, p).plan.inputs, c.id) == Some(InputsOf(w, p.run, c))
  {
    hide Status, DecideOne, ContextOf, Assembled, Names;
    var item := ListedAt(w, h, p, c);
    DecisionAt(w.m, p.run.o, ShelfOf(h), ContextOf(w, h, p), p.run.contract.components, c);
    CurrentAt(w, p.run, p.run.contract.components, c);
  }

  // ---- one publication keeps the invariant ----------------------------------------------------

  lemma BuiltIsOwn(w: World, h: seq<Past>, p: Past, c: Component)
    requires DistinctTags(h) && Publishes(w, h, p) && c in p.run.contract.components
    requires EntryAt(p, c.id).Available? && EntryAt(p, c.id).origin.Built?
    ensures BuiltHere(w, p, c, EntryAt(p, c.id))
  {
    hide DecideOne, ContextOf, DecisionsOf, CurrentOf, InputsOf, Status, Assembled, ShelfOf, Measure;
    EntryStatus(w, h, p, c);
    BuiltStatus(w.m, JobOf(w, h, p), p.version.code, p.run.assets, c, EntryAt(p, c.id));
    if c.kind.Player? {
      PublishedNames(w, h, p, c);
      MeasureAgrees(w.m, p.run.assets, p.files, c.kind.assets, p.run.version);
    }
  }

  /** What the status of a built component records. */
  lemma BuiltStatus(m: Meter, job: Job, code: nat, files: Directory, c: Component, e: Entry)
    requires Status(m, job, code, files, c) == Ok(e) && e.Available? && e.origin.Built?
    requires forall v | v in job.report.components ::
      v.versionName == job.version && v.versionCode == code && v.channel == job.channel
    ensures e.versionName == job.version && e.versionCode == Some(code) && e.channel == Some(job.channel)
    ensures e.inputs == Inputs.Lookup(job.plan.inputs, c.id)
    ensures match c.kind
      case ServerImage => e.payload.Image? && e.payload.tag == job.version
      case Player(_, _, specs) =>
        && (forall name | name in NamesOf(specs, job.version) :: name in files)
        && e.payload == Assets(Measure(m, files, specs, job.version))
  {
    hide Measure, Rejected;
  }

  lemma PublishedNames(w: World, h: seq<Past>, p: Past, c: Component)
    requires DistinctTags(h) && Publishes(w, h, p) && c in p.run.contract.components && c.kind.Player?
    requires EntryAt(p, c.id).Available? && EntryAt(p, c.id).origin.Built?
    ensures forall name | name in NamesOf(c.kind.assets, p.run.version) ::
      name in p.run.assets && name in p.files && p.files[name] == p.run.assets[name]
  {
    hide DecideOne, ContextOf, DecisionsOf, CurrentOf, Status, ChecksumText, Records, Consistent;
    var job, items := JobOf(w, h, p), p.inventory.components;
    var item := ListedAt(w, h, p, c);
    Build.BuiltEntry(w.m, job, p.version.code, p.run.assets, c, item);
    Build.OwnFilesAreKept(w.m, job, p.version.code, p.run.assets, items);
    forall name | name in NamesOf(c.kind.assets, p.run.version)
      ensures name in p.run.assets && name in p.files && p.files[name] == p.run.assets[name]
    {
      assert name in Elements(Names(c, job.version));
      assert name in OwnNames(items);
    }
  }

  lemma MeasureAgrees(m: Meter, a: Directory, b: Directory, specs: seq<AssetSpec>, version: string)
    requires forall name | name in NamesOf(specs, version) :: name in a && name in b && a[name] == b[name]
    ensures Measure(m, a, specs, version) == Measure(m, b, specs, version)
  {
    forall i | 0 <= i < |specs| ensures Measure(m, a, specs, version)[i] == Measure(m, b, specs, version)[i] {
      assert NamesOf(specs, version)[i] in NamesOf(specs, version);
    }
  }

  /** An inherited entry is the baseline's entry, verified again. */
  lemma InheritedFromPlan(w: World, h: seq<Past>, p: Past, c: Component)
    requires DistinctTags(h) && Publishes(w, h, p) && c in p.run.contract.components
    requires EntryAt(p, c.id).Available? && EntryAt(p, c.id).origin.Inherited?
    ensures var ctx, d := ContextOf(w, h, p), DecideOne(w.m, p.run.o, ShelfOf(h), ContextOf(w, h, p), c);
      && d.ToInherit? && EntryAt(p, c.id) == InheritedEntry(d)
      && Candidate(ctx, c).Some? && Facts(w.m, p.run.o, ShelfOf(h), ctx, c, Candidate(ctx, c).value).Ok?
      && d == Carry(ctx, Candidate(ctx, c).value, Facts(w.m, p.run.o, ShelfOf(h), ctx, c, Candidate(ctx, c).value))
  {
    hide ContextOf, DecisionsOf, CurrentOf, Publishes, ShelfOf, Facts, Candidate, DecideOne, Status, EntryAt;
    EntryStatus(w, h, p, c);
    InheritedStatus(w.m, JobOf(w, h, p), p.version.code, p.run.assets, c, EntryAt(p, c.id));
    InheritedDecision(w.m, p.run.o, ShelfOf(h), ContextOf(w, h, p), c);
  }

  /** Where a candidate comes from: the release followed holds the component, and
      nothing rules its entry out. */
  lemma CandidateFrom(w: World, h: seq<Past>, p: Past, c: Component) returns (k: nat)
    requires Valid(w, h) && DistinctTags(h) && WellFormed(p.run.contract, p.run.version)
    requires c in p.run.contract.components
    requires Candidate(ContextOf(w, h, p), c).Some?
    ensures k < |h| && p.previous.Some? && h[k].Tag() == TagOf(p.previous)
    ensures var ctx, e := ContextOf(w, h, p), EntryAt(h[k], c.id);
      && ctx.baseline == Some(Release(h[k].Tag(), h[k].inventory, w.m.sha256(Json(h[k].inventory))))
      && Candidate(ctx, c) == Some(e) && ctx.contract == p.run.contract && ctx.channel == p.Channel()
      && c.id in ctx.current && ctx.current[c.id] == InputsOf(w, p.run, c)
  {
    hide DecisionsOf, CurrentOf, ShelfOf, Facts, DecideOne, InputsOf, LoadRelease, PlanContext, Candidate, Valid;
    CurrentAt(w, p.run, p.run.contract.components, c);
    ReadContext(w.m, p.run.o, ShelfOf(h), p.run.contract, p.Channel(), CurrentOf(w, p.run, p.run.contract.components),
                p.run.pending, p.run.reuse, TagOf(p.previous), TagOf(p.nearest));
    k := Loaded(w, h, p.run.o, TagOf(p.previous));
  }

  /** Where an inherited entry comes from: the baseline holds the component, and
      nothing rules its entry out. */
  lemma Baseline(w: World, h: seq<Past>, p: Past, c: Component) returns (k: nat)
    requires Valid(w, h) && Publishes(w, h, p) && c in p.run.contract.components
    requires EntryAt(p, c.id).Available? && EntryAt(p, c.id).origin.Inherited?
    ensures k < |h| && p.previous.Some? && h[k].Tag() == TagOf(p.previous)
    ensures var ctx, e := ContextOf(w, h, p), EntryAt(h[k], c.id);
      && ctx.baseline == Some(Release(h[k].Tag(), h[k].inventory, w.m.sha256(Json(h[k].inventory))))
      && Candidate(ctx, c) == Some(e) && ctx.contract == p.run.contract && ctx.channel == p.Channel()
      && c.id in ctx.current && ctx.current[c.id] == InputsOf(w, p.run, c)
  {
    hide Publishes, ContextOf, ShelfOf, Facts, DecideOne, InputsOf, Candidate, WellFormed, Valid;
    Tags(w, h);
    InheritedFromPlan(w, h, p, c);
    WellFormedContract(w, h, p);
    k := CandidateFrom(w, h, p, c);
  }

  lemma WellFormedContract(w: World, h: seq<Past>, p: Past)
    requires DistinctTags(h) && Publishes(w, h, p)
    ensures WellFormed(p.run.contract, p.run.version)
  {
    hide Assembled, WellFormed;
  }

  /** Equal recorded and current digests are equal contract entries. */
  lemma SameComponent(w: World, old_: Run, d: Component, now: Run, c: Component)
    requires Sane(w) && Unchanged(Some(InputsOf(w, old_, d)), InputsOf(w, now, c))
    ensures c == d && Inputs.Counted(old_.rules(d.profile), w.tree(old_.commit))
      == Inputs.Counted(now.rules(c.profile), w.tree(now.commit))
  {
    var a := Inputs.Counted(old_.rules(d.profile), w.tree(old_.commit));
    var b := Inputs.Counted(now.rules(c.profile), w.tree(now.commit));
    assert Inputs.GitListing(w.tree(old_.commit)) && Inputs.GitListing(w.tree(now.commit));
    Inputs.DigestIsIdentity(w.h, w.canonical(d), a, w.canonical(c), b);
  }

  /** The release a baseline entry leads back to: the baseline, or its own source. */
  lemma Builder(w: World, h: seq<Past>, k: nat, c: Component, now: Run) returns (j: nat)
    requires Sane(w) && Valid(w, h) && Inv(w, h) && k < |h|
    requires EntryAt(h[k], c.id).Available? && Unchanged(EntryAt(h[k], c.id).inputs, InputsOf(w, now, c))
    ensures j <= k && c in h[k].run.contract.components && c in h[j].run.contract.components
    ensures var e, built := EntryAt(h[k], c.id), EntryAt(h[j], c.id);
      && built.Available? && built.origin.Built? && BuiltHere(w, h[j], c, built)
      && OriginOf(Release(h[k].Tag(), h[k].inventory, w.m.sha256(Json(h[k].inventory))), e)
         == OriginRef(h[j].Tag(), h[j].run.commit, w.m.sha256(Json(h[j].inventory)))
      && e.versionName == built.versionName && e.versionCode == built.versionCode && e.channel == built.channel
      && e.inputs == built.inputs && SamePayload(e.payload, built.payload)
  {
    hide InputsOf, Unchanged, Publishes, ParseVersion, Measure;
    PrefixValid(w, h, k);
    OwnInventory(w, h[..k], h[k]);
    var d := ComponentOf(w, h[..k], h[k], c.id);
    var e := EntryAt(h[k], c.id);
    assert Grounded(w, h, k, d);
    if e.origin.Built? {
      j := k;
      SameComponent(w, h[k].run, d, now, c);
      SameAsItself(e.payload);
    } else {
      j :| 0 <= j < k && SuppliedBy(w, e, h[j], d);
      SameComponent(w, h[j].run, d, now, c);
    }
  }

  lemma SameAsItself(a: Payload)
    ensures SamePayload(a, a)
  {
  }

  /** The facts established about the builder's files are its own entry's payload. */
  lemma FactsAreBuilt(w: World, h: seq<Past>, o: Oracles, ctx: Context, c: Component, e: Entry, j: nat)
    requires Valid(w, h) && j < |h| && ctx.baseline.Some? && e.Available?
    requires OriginOf(ctx.baseline.value, e).tag == h[j].Tag()
    requires EntryAt(h[j], c.id).Available? && BuiltHere(w, h[j], c, EntryAt(h[j], c.id))
    requires e.versionName == h[j].run.version && SamePayload(e.payload, EntryAt(h[j], c.id).payload)
    requires DistinctTags(h) && Facts(w.m, o, ShelfOf(h), ctx, c, e).Ok?
    ensures SamePayload(Facts(w.m, o, ShelfOf(h), ctx, c, e).value, EntryAt(h[j], c.id).payload)
    ensures match Facts(w.m, o, ShelfOf(h), ctx, c, e).value
      case Image(_, _, digest) => !c.kind.Player? && StartsWith(digest, "sha256:")
      case Assets(_) => c.kind.Player?
  {
    hide Measure, Publishes, InputsOf, NamesOf, CheckOrigin, CheckImage, Valid;
    Tags(w, h);
    var origin := OriginOf(ctx.baseline.value, e);
    if c.kind.Player? {
      var k := Fetched(w, h, origin.tag);
      assert k == j;
      OriginPayload(w.m, o, h[j].files, origin, c, e);
    } else {
      ImagePayload(o, ctx.contract, e, origin);
    }
  }

  /** Inheritance never chains: an inherited entry repeats the entry of an earlier
      release that built the component itself. */
  lemma Supplied(w: World, h: seq<Past>, p: Past, c: Component) returns (k: nat, j: nat)
    requires Sane(w) && Valid(w, h) && Inv(w, h) && Publishes(w, h, p) && c in p.run.contract.components
    requires EntryAt(p, c.id).Available? && EntryAt(p, c.id).origin.Inherited?
    ensures j <= k < |h| && SuppliedBy(w, EntryAt(p, c.id), h[j], c)
    ensures p.previous.Some? && h[k].Tag() == TagOf(p.previous) && c in h[k].run.contract.components
    ensures EntryAt(h[k], c.id).Available? && EntryAt(p, c.id).versionCode == EntryAt(h[k], c.id).versionCode
    ensures ChannelAllows(EntryAt(p, c.id).channel, p.Channel())
    ensures Unchanged(EntryAt(p, c.id).inputs, InputsOf(w, p.run, c))
    ensures match EntryAt(p, c.id).payload
      case Image(_, _, digest) => !c.kind.Player? && StartsWith(digest, "sha256:")
      case Assets(_) => c.kind.Player?
  {
    hide Publishes, ContextOf, Facts, Candidate, BuiltHere, DecideOne, ShelfOf, InputsOf, SamePayload, Inv;
    k := Baseline(w, h, p, c);
    InheritedFromPlan(w, h, p, c);
    j := Builder(w, h, k, c, p.run);
    BuiltCode(w, h[j], c);
    FactsAreBuilt(w, h, p.run.o, ContextOf(w, h, p), c, EntryAt(h[k], c.id), j);
  }

  lemma BuiltCode(w: World, p: Past, c: Component)
    requires EntryAt(p, c.id).Available? && BuiltHere(w, p, c, EntryAt(p, c.id))
    ensures var e := EntryAt(p, c.id);
      e.versionName == p.run.version && e.versionCode == Some(p.version.code) && e.channel == Some(p.Channel())
      && e.inputs == Some(InputsOf(w, p.run, c))
  {
  }

  // ---- every history keeps it ---------------------------------------------------------------

  lemma Ordered(w: World, h: seq<Past>, p: Past)
    requires DistinctTags(h) && Publishes(w, h, p)
    ensures p.version.name == p.run.version && Plan.FromTag(p.version) && p.version.Unified()
    ensures forall q | q in h :: q.Tag() != p.Tag()
    ensures Plan.MayPublish(VersionsOf(h), p.version)
    ensures Plan.IsNewest(Plan.Earlier(VersionsOf(h), p.version), Plan.Followed(p.version), p.previous)
    ensures Plan.IsNewest(Plan.Earlier(VersionsOf(h), p.version), None, p.nearest)
  {
    hide ParseTag, Assembled, JobOf, WellFormed;
    assert ("v" + p.version.name)[1..] == ("v" + p.run.version)[1..];
  }

  /** A release named in the plan is the one in the history with that version. */
  lemma Named(w: World, h: seq<Past>, k: nat, version: Version)
    requires Valid(w, h) && k < |h| && version in VersionsOf(h) && h[k].Tag() == "v" + version.name
    ensures h[k].version == version
  {
    hide Publishes;
    var q :| 0 <= q < |h| && h[q].version == version;
    PrefixValid(w, h, q);
    Ordered(w, h[..q], h[q]);
    assert h[q].Tag() == h[k].Tag();
  }

  lemma StepKeepsNoDowngrade(w: World, h: seq<Past>, p: Past, c: Component)
    requires Sane(w) && Valid(w, h) && Inv(w, h) && Publishes(w, h, p) && c in p.run.contract.components
    ensures NoDowngrade(p, EntryAt(p, c.id))
  {
    hide Publishes, BuiltHere, InputsOf, SuppliedBy, Valid, Plan.FromTag;
    Tags(w, h);
    Ordered(w, h, p);
    Plan.CodeSlot(p.version);
    if EntryAt(p, c.id).Available? {
      if EntryAt(p, c.id).origin.Built? {
        BuiltIsOwn(w, h, p, c);
        BuiltCode(w, p, c);
      } else {
        var k, j := Supplied(w, h, p, c);
        Named(w, h, k, p.previous.value);
        assert NoDowngrade(h[k], EntryAt(h[k], c.id));
      }
    }
  }

  lemma StepKeepsInv(w: World, h: seq<Past>, p: Past)
    requires Sane(w) && Valid(w, h) && Inv(w, h) && Publishes(w, h, p)
    ensures Inv(w, h + [p])
  {
    hide Publishes, Valid, BuiltHere, SuppliedBy, NoDowngrade, EntryAt;
    Tags(w, h);
    var g := h + [p];
    forall i, c | 0 <= i < |g| && c in g[i].run.contract.components
      ensures Grounded(w, g, i, c) && NoDowngrade(g[i], EntryAt(g[i], c.id))
    {
      var e := EntryAt(g[i], c.id);
      if i < |h| {
        assert g[i] == h[i] && Grounded(w, h, i, c);
        if e.Available? && e.origin.Inherited? {
          var j :| 0 <= j < i && SuppliedBy(w, e, h[j], c);
          assert g[j] == h[j];
        }
      } else {
        StepKeepsNoDowngrade(w, h, p, c);
        if e.Available? && e.origin.Built? {
          BuiltIsOwn(w, h, p, c);
        } else if e.Available? {
          var k, j := Supplied(w, h, p, c);
          assert g[j] == h[j];
        }
      }
    }
  }

  lemma {:induction false} ValidKeepsInv(w: World, h: seq<Past>)
    requires Sane(w) && Valid(w, h)
    ensures Inv(w, h)
    decreases |h|
  {
    hide Publishes, Inv;
    if h == [] {
      assert Inv(w, h) by { EmptyInv(w); }
    } else {
      var front, last := h[..|h| - 1], h[|h| - 1];
      ValidKeepsInv(w, front);
      StepKeepsInv(w, front, last);
      assert h == front + [last];
    }
  }

  lemma EmptyInv(w: World)
    ensures Inv(w, [])
  {
  }

  // ---- the theorems ------------------------------------------------------------------------------

  /** Provenance, and carried forward means unchanged: in every history, an
      inherited entry names an earlier release that built the component itself with
      the same version, code, channel, inputs and files; and the component's
      contract entry and counted files are the same at both commits, however many
      releases carried it in between. */
  lemma InheritanceIsGrounded(w: World, h: seq<Past>, i: nat, c: Component) returns (j: nat)
    requires Sane(w) && Valid(w, h) && i < |h| && c in h[i].run.contract.components
    requires EntryAt(h[i], c.id).Available? && EntryAt(h[i], c.id).origin.Inherited?
    ensures j < i && SuppliedBy(w, EntryAt(h[i], c.id), h[j], c)
    ensures Inputs.Counted(h[j].run.rules(c.profile), w.tree(h[j].run.commit))
         == Inputs.Counted(h[i].run.rules(c.profile), w.tree(h[i].run.commit))
  {
    hide Publishes, BuiltHere, Inv, InputsOf, Unchanged;
    PrefixValid(w, h, i);
    ValidKeepsInv(w, h[..i]);
    var k;
    k, j := Supplied(w, h[..i], h[i], c);
    assert h[..i][j] == h[j];
    BuiltCode(w, h[j], c);
    SameComponent(w, h[j].run, c, h[i].run, c);
  }

  /** In every history no entry is newer than the release that lists it, and a
      Stable release lists only Stable builds. */
  lemma NothingIsDowngraded(w: World, h: seq<Past>, i: nat, c: Component)
    requires Sane(w) && Valid(w, h) && i < |h| && c in h[i].run.contract.components
    ensures NoDowngrade(h[i], EntryAt(h[i], c.id))
  {
    hide Publishes, NoDowngrade, Grounded;
    ValidKeepsInv(w, h);
  }
}
