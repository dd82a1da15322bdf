/** Which components of a release are built and which are carried forward from an
    earlier published one (scripts/release/release_reuse.py). */
module Reuse {
  import opened Text
  import opened Versions
  import opened Assemble
  import opened Recheck
  import Inputs

  /** A published release as it is fetched: the commit its tag names, and its assets. */
  datatype Publication = Publication(commit: string, files: Directory)

  type Shelf = map<string, Publication>

  datatype Annotations = Annotations(version: string, revision: string)

  /** What planning asks of the outside: whether a tag can be fetched, the
      verifier's report over an earlier release, and the registry. */
  datatype Oracles = Oracles(fetched: string -> bool, report: string -> Report, image: string -> Option<Annotations>)

  datatype Release = Release(tag: string, inventory: Inventory, inventorySha256: string)

  datatype OriginRef = OriginRef(tag: string, commit: string, inventorySha256: string)

  datatype Refusal =
    | NotPublished | Uninventoried | OtherTag | OtherCommit | NoSource | InventoryChanged | NotItsOwn | OtherBuild
    | DoesNotVerify | NotHeld | MissingAsset | AssetDiffers | MalformedDigest | NoImage | ImageVersion | ImageCommit

  // ---- reading earlier releases -----------------------------------------------------

  function ReadInventory(files: Directory): Option<Inventory> {
    if INVENTORY in files && files[INVENTORY].Json? then Some(files[INVENTORY].inventory) else None
  }

  function LoadRelease(m: Meter, o: Oracles, shelf: Shelf, tag: string): Result<Release, Refusal> {
    if tag !in shelf || !o.fetched(tag) then Err(NotPublished)
    else
      match ReadInventory(shelf[tag].files)
      case None => Err(Uninventoried)
      case Some(inventory) =>
        if inventory.tag != tag then Err(OtherTag)
        else if shelf[tag].commit == "" || shelf[tag].commit != inventory.commit then Err(OtherCommit)
        else Ok(Release(tag, inventory, m.sha256(shelf[tag].files[INVENTORY])))
  }

  function EntryOf(release: Release, id: string): Entry {
    match FindItem(release.inventory.components, id)
    case Some(item) => item.entry
    case None => Unavailable
  }

  /** The release that holds a component's files. */
  function OriginOf(release: Release, entry: Entry): OriginRef
    requires entry.Available?
  {
    match entry.origin
    case Inherited(source) => OriginRef(source.tag, source.commit, source.inventorySha256)
    case Built => OriginRef(release.tag, release.inventory.commit, release.inventorySha256)
  }

  function EntryCode(entry: Entry): int
    requires entry.Available?
  {
    match entry.versionCode
    case Some(code) => code
    case None => match ParseVersion(entry.versionName) case Some(v) => v.code case None => 0
  }

  function EntryChannel(entry: Entry): Option<Channel>
    requires entry.Available?
  {
    match entry.channel
    case Some(channel) => Some(channel)
    case None => match ParseVersion(entry.versionName) case Some(v) => v.channel case None => None
  }

  /** A Stable build goes anywhere; a Beta build only into another Beta. */
  predicate ChannelAllows(origin: Option<Channel>, release: Channel) {
    origin == Some(Stable) || origin == Some(release)
  }

  // ---- verifying what an earlier release published ------------------------------------

  function RecordedAssets(entry: Entry): seq<Asset>
    requires entry.Available?
  {
    match entry.payload case Assets(assets) => assets case Image(_, _, _) => []
  }

  /** The last recorded asset of a name. */
  function FindAsset(assets: seq<Asset>, name: string): Option<Asset> {
    if assets == [] then None
    else if assets[|assets| - 1].name == name then Some(assets[|assets| - 1])
    else FindAsset(assets[..|assets| - 1], name)
  }

  predicate SameBytes(asset: Asset, was: Option<Asset>) {
    was.Some? && was.value.sha256 == asset.sha256 && was.value.size == asset.size
  }

  function PlayerFacts(m: Meter, files: Directory, c: Component, entry: Entry, report: Report): Result<Payload, Refusal>
    requires c.kind.Player? && entry.Available?
  {
    var platform := Platform(c.kind.family, c.kind.architecture);
    if Rejected(report, platform) then Err(DoesNotVerify)
    else
      match FirstVerified(report.components, platform)
      case None => Err(NotHeld)
      case Some(v) =>
        if v.versionName != entry.versionName || v.versionCode != EntryCode(entry) then Err(OtherBuild)
        else if exists name | name in NamesOf(c.kind.assets, v.versionName) :: name !in files then Err(MissingAsset)
        else
          var assets := Measure(m, files, c.kind.assets, v.versionName);
          if exists a | a in assets :: !SameBytes(a, FindAsset(RecordedAssets(entry), a.name)) then Err(AssetDiffers)
          else Ok(Assets(assets))
  }

  /** An origin is believed only about a component it built itself, in an inventory
      that has not changed since it was read. */
  function CheckOrigin(m: Meter, o: Oracles, files: Directory, origin: OriginRef, c: Component,
                       entry: Entry): Result<Payload, Refusal>
    requires c.kind.Player? && entry.Available?
  {
    match ReadInventory(files)
    case None => Err(Uninventoried)
    case Some(inventory) =>
      if origin.inventorySha256 != "" && m.sha256(files[INVENTORY]) != origin.inventorySha256 then Err(InventoryChanged)
      else
        match FindItem(inventory.components, c.id)
        case None => Err(NotItsOwn)
        case Some(held) =>
          if held.entry.Unavailable? || held.entry.origin.Inherited? then Err(NotItsOwn)
          else if held.entry.versionName != entry.versionName || EntryCode(held.entry) != EntryCode(entry)
          then Err(OtherBuild)
          else PlayerFacts(m, files, c, entry, o.report(origin.tag))
  }

  function VerifyOrigin(m: Meter, o: Oracles, shelf: Shelf, origin: OriginRef, c: Component,
                        entry: Entry): Result<Payload, Refusal>
    requires c.kind.Player? && entry.Available?
  {
    if origin.tag == "" then Err(NoSource)
    else if origin.tag !in shelf || !o.fetched(origin.tag) then Err(NotPublished)
    else CheckOrigin(m, o, shelf[origin.tag].files, origin, c, entry)
  }

  function CheckImage(o: Oracles, contract: Contract, entry: Entry, origin: OriginRef): Result<Payload, Refusal>
    requires entry.Available?
  {
    var digest := match entry.payload case Image(_, _, d) => d case Assets(_) => "";
    if |digest| != 71 || !StartsWith(digest, "sha256:") then Err(MalformedDigest)
    else
      match o.image(digest)
      case None => Err(NoImage)
      case Some(annotations) =>
        if annotations.version != entry.versionName then Err(ImageVersion)
        else if origin.commit != "" && annotations.revision != origin.commit then Err(ImageCommit)
        else Ok(Image(contract.serverImage, entry.versionName, digest))
  }

  /** Facts are measured from the origin's own files, under the entry's version. */
  lemma OriginPayload(m: Meter, o: Oracles, files: Directory, origin: OriginRef, c: Component, entry: Entry)
    requires c.kind.Player? && entry.Available? && CheckOrigin(m, o, files, origin, c, entry).Ok?
    ensures forall name | name in NamesOf(c.kind.assets, entry.versionName) :: name in files
    ensures CheckOrigin(m, o, files, origin, c, entry).value
      == Assets(Measure(m, files, c.kind.assets, entry.versionName))
  {
    hide Measure, Rejected, FindAsset, FindItem, NamesOf;
  }

  lemma ImagePayload(o: Oracles, contract: Contract, entry: Entry, origin: OriginRef)
    requires entry.Available? && CheckImage(o, contract, entry, origin).Ok?
    ensures entry.payload.Image? && StartsWith(entry.payload.digest, "sha256:")
    ensures CheckImage(o, contract, entry, origin).value
      == Image(contract.serverImage, entry.versionName, entry.payload.digest)
  {
  }

  /** Downloads an origin release once; a published release does not change. */
  class OriginVerifier {
    const m: Meter
    const o: Oracles
    const shelf: Shelf
    var cache: map<string, Directory>

    ghost predicate Valid()
      reads this
    {
      forall tag | tag in cache :: tag in shelf && cache[tag] == shelf[tag].files
    }

    constructor (m: Meter, o: Oracles, shelf: Shelf)
      ensures Valid() && cache == map[] && this.m == m && this.o == o && this.shelf == shelf
    {
      this.m, this.o, this.shelf, this.cache := m, o, shelf, map[];
    }

    /** `arrives` is what a download does that starts now. One that arrived is kept and
        asked for no more; one that failed is not remembered. */
    method Verify(origin: OriginRef, c: Component, entry: Entry, arrives: bool) returns (r: Result<Payload, Refusal>)
      requires Valid() && c.kind.Player? && entry.Available?
      modifies this
      ensures Valid()
      ensures r == VerifyOrigin(m, Reaching(o, origin.tag in cache), shelf, origin, c, entry)
      ensures cache.Keys == old(cache.Keys) +
        if origin.tag != "" && origin.tag in shelf && arrives then {origin.tag} else {}
    {
      hide CheckOrigin;
      OnlyTheReport(m, o, shelf, origin, c, entry);
      if origin.tag == "" {
        return Err(NoSource);
      }
      if origin.tag !in cache {
        if origin.tag !in shelf || !arrives {
          return Err(NotPublished);
        }
        cache := cache[origin.tag := shelf[origin.tag].files];
      }
      r := CheckOrigin(m, o, cache[origin.tag], origin, c, entry);
    }
  }

  /** The same world, with downloads that all arrive or all fail. */
  function Reaching(o: Oracles, arrives: bool): Oracles { o.(fetched := _ => arrives) }

  lemma OnlyTheReport(m: Meter, o: Oracles, shelf: Shelf, origin: OriginRef, c: Component, entry: Entry)
    requires c.kind.Player? && entry.Available?
    ensures forall arrives, files ::
      CheckOrigin(m, Reaching(o, arrives), files, origin, c, entry) == CheckOrigin(m, o, files, origin, c, entry)
  {
    hide PlayerFacts;
  }

  // ---- deciding ----------------------------------------------------------------------------

  /** `unavailable` says reuse cannot apply at all; otherwise there is a baseline
      wherever a component is pending. */
  datatype Context = Context(contract: Contract, channel: Channel, current: map<string, Inputs.Fingerprint>,
                             baseline: Option<Release>, newest: Option<Release>, pending: set<string>,
                               unavailable: bool)

  /** `differences` finds nothing between the recorded inputs and the current ones. */
  predicate Unchanged(was: Option<Inputs.Fingerprint>, now: Inputs.Fingerprint) {
    was.Some? && was.value.schema == Inputs.SCHEMA && was.value.digest != "" && was.value.digest == now.digest
  }

  /** A newer published release holds a newer build of the component. */
  predicate Overtaken(newest: Option<Release>, baseline: Release, id: string, entry: Entry)
    requires entry.Available?
  {
    newest.Some? && newest.value.tag != baseline.tag
    && EntryOf(newest.value, id).Available? && EntryCode(EntryOf(newest.value, id)) > EntryCode(entry)
  }

  /** The baseline's entry for a component, when nothing rules it out before its
      files are checked. */
  function Candidate(ctx: Context, c: Component): (found: Option<Entry>)
    ensures found.Some? ==>
      && c.id in ctx.pending && !ctx.unavailable && ctx.baseline.Some? && c.id in ctx.current
      && found.value.Available? && found.value == EntryOf(ctx.baseline.value, c.id)
      && Unchanged(found.value.inputs, ctx.current[c.id])
      && EntryChannel(found.value).Some? && ChannelAllows(EntryChannel(found.value), ctx.channel)
      && !Overtaken(ctx.newest, ctx.baseline.value, c.id, found.value)
  {
    if c.id !in ctx.pending || ctx.unavailable || ctx.baseline.None? || c.id !in ctx.current then None
    else
      var entry := EntryOf(ctx.baseline.value, c.id);
      if entry.Unavailable? || !Unchanged(entry.inputs, ctx.current[c.id])
         || !ChannelAllows(EntryChannel(entry), ctx.channel)
         || Overtaken(ctx.newest, ctx.baseline.value, c.id, entry)
      then None
      else Some(entry)
  }

  function Facts(m: Meter, o: Oracles, shelf: Shelf, ctx: Context, c: Component, entry: Entry): Result<Payload, Refusal>
    requires ctx.baseline.Some? && entry.Available?
  {
    var origin := OriginOf(ctx.baseline.value, entry);
    if c.kind.Player? then VerifyOrigin(m, o, shelf, origin, c, entry) else CheckImage(o, ctx.contract, entry, origin)
  }

  function Carry(ctx: Context, entry: Entry, facts: Result<Payload, Refusal>): Decision
    requires ctx.baseline.Some? && entry.Available? && EntryChannel(entry).Some? && entry.inputs.Some?
  {
    match facts
    case Err(_) => ToBuild
    case Ok(payload) =>
      var origin := OriginOf(ctx.baseline.value, entry);
      ToInherit(entry.versionName, EntryCode(entry), EntryChannel(entry).value,
                Source(origin.tag, origin.commit, origin.inventorySha256, ctx.contract.releases + origin.tag),
                entry.inputs.value, payload)
  }

  function DecideOne(m: Meter, o: Oracles, shelf: Shelf, ctx: Context, c: Component): Decision {
    match Candidate(ctx, c)
    case None => ToBuild
    case Some(entry) => Carry(ctx, entry, Facts(m, o, shelf, ctx, c, entry))
  }

  /** One decision per contract component. */
  ghost function DecisionsOf(m: Meter, o: Oracles, shelf: Shelf, ctx: Context,
                             components: seq<Component>): map<string, Decision> {
    if components == [] then map[]
    else
      var c := components[|components| - 1];
      DecisionsOf(m, o, shelf, ctx, components[..|components| - 1])[c.id := DecideOne(m, o, shelf, ctx, c)]
  }

  /** The release a component's files are downloaded from, when it comes to that. */
  function Needs(ctx: Context, c: Component): Option<string> {
    match Candidate(ctx, c)
    case None => None
    case Some(entry) =>
      var tag := OriginOf(ctx.baseline.value, entry).tag;
      if c.kind.Player? && tag != "" then Some(tag) else None
  }

  /** A release is at hand for a component: it was before, or a download that started
      for that component or one before it arrived. `arrives` says of each what a
      download does that starts then. */
  ghost predicate AtHand(before: set<string>, shelf: Shelf, ctx: Context, arrives: seq<bool>, upTo: nat, tag: string)
    requires |arrives| == |ctx.contract.components| && upTo <= |arrives|
  {
    tag in before
    || (tag in shelf && exists j | 0 <= j < upTo :: arrives[j] && Needs(ctx, ctx.contract.components[j]) == Some(tag))
  }

  /** A decision made alone, with the release it needs at hand or not. */
  ghost function DecidedThen(m: Meter, o: Oracles, shelf: Shelf, before: set<string>, ctx: Context,
                             arrives: seq<bool>, i: nat): Decision
    requires |arrives| == |ctx.contract.components| && i < |arrives|
  {
    var c := ctx.contract.components[i];
    var needed := Needs(ctx, c);
    DecideOne(m, Reaching(o, needed.Some? && AtHand(before, shelf, ctx, arrives, i + 1, needed.value)), shelf, ctx, c)
  }

  /** Downloads that do, each time, what they do once. */
  ghost predicate Steady(o: Oracles, before: set<string>, ctx: Context, arrives: seq<bool>)
    requires |arrives| == |ctx.contract.components|
  {
    && (forall tag | tag in before :: o.fetched(tag))
    && forall i | 0 <= i < |arrives| && Needs(ctx, ctx.contract.components[i]).Some? ::
      arrives[i] == o.fetched(Needs(ctx, ctx.contract.components[i]).value)
  }

  method Decide(verifier: OriginVerifier, ctx: Context, arrives: seq<bool>) returns (decisions: map<string, Decision>)
    requires verifier.Valid() && |arrives| == |ctx.contract.components|
    modifies verifier
    ensures verifier.Valid()
    ensures DistinctIds(ctx.contract.components) ==> forall i | 0 <= i < |arrives| ::
      var c := ctx.contract.components[i];
      c.id in decisions && decisions[c.id]
        == DecidedThen(verifier.m, verifier.o, verifier.shelf, old(verifier.cache.Keys), ctx, arrives, i)
    ensures Steady(verifier.o, old(verifier.cache.Keys), ctx, arrives) ==>
      decisions == DecisionsOf(verifier.m, verifier.o, verifier.shelf, ctx, ctx.contract.components)
  {
    hide DecideOne, DecidedThen, DistinctIds, Steady, Needs, Candidate, Facts;
    decisions := map[];
    ghost var before := verifier.cache.Keys;
    assert forall tag | tag in before :: tag in verifier.shelf;
    var components := ctx.contract.components;
    for i := 0 to |components|
      invariant verifier.Valid()
      invariant forall tag :: tag in verifier.cache <==> AtHand(before, verifier.shelf, ctx, arrives, i, tag)
      invariant DistinctIds(components) ==> forall k | 0 <= k < i ::
        components[k].id in decisions
        && decisions[components[k].id] == DecidedThen(verifier.m, verifier.o, verifier.shelf, before, ctx, arrives, k)
      invariant Steady(verifier.o, before, ctx, arrives) ==>
        decisions == DecisionsOf(verifier.m, verifier.o, verifier.shelf, ctx, components[..i])
    {
      var decision := DecideNext(verifier, ctx, arrives, i, before);
      assert components[..i + 1][..i] == components[..i];
      if DistinctIds(components) {
        forall k | 0 <= k < i ensures components[k].id != components[i].id { Distinct(components, k, i); }
      }
      if Steady(verifier.o, before, ctx, arrives) {
        DecidedSteadily(verifier.m, verifier.o, verifier.shelf, before, ctx, arrives, i);
      }
      decisions := decisions[components[i].id := decision];
    }
    assert components[..|components|] == components;
  }

  /** One turn of it. */
  method DecideNext(verifier: OriginVerifier, ctx: Context, arrives: seq<bool>, i: nat,
                    ghost before: set<string>) returns (decision: Decision)
    requires verifier.Valid() && |arrives| == |ctx.contract.components| && i < |arrives|
    requires forall tag :: tag in verifier.cache <==> AtHand(before, verifier.shelf, ctx, arrives, i, tag)
    modifies verifier
    ensures verifier.Valid()
    ensures forall tag :: tag in verifier.cache <==> AtHand(before, verifier.shelf, ctx, arrives, i + 1, tag)
    ensures decision == DecidedThen(verifier.m, verifier.o, verifier.shelf, before, ctx, arrives, i)
  {
    hide Candidate, CheckImage, CheckOrigin, Carry, OriginOf, AtHand;
    var c := ctx.contract.components[i];
    var candidate := Candidate(ctx, c);
    MoreAtHand(before, verifier.shelf, ctx, arrives, i);
    if candidate.None? {
      return ToBuild;
    }
    var entry := candidate.value;
    var origin := OriginOf(ctx.baseline.value, entry);
    var facts;
    OnlyFetched(verifier.m, verifier.o, verifier.shelf, ctx, c, entry);
    if c.kind.Player? {
      OnlyTheReport(verifier.m, verifier.o, verifier.shelf, origin, c, entry);
      facts := verifier.Verify(origin, c, entry, arrives[i]);
    } else {
      facts := CheckImage(verifier.o, ctx.contract, entry, origin);
    }
    decision := Carry(ctx, entry, facts);
  }

  lemma MoreAtHand(before: set<string>, shelf: Shelf, ctx: Context, arrives: seq<bool>, i: nat)
    requires |arrives| == |ctx.contract.components| && i < |arrives|
    ensures forall tag :: AtHand(before, shelf, ctx, arrives, i + 1, tag) <==>
      AtHand(before, shelf, ctx, arrives, i, tag)
      || (tag in shelf && arrives[i] && Needs(ctx, ctx.contract.components[i]) == Some(tag))
  {
    hide Needs;
  }

  lemma Distinct(components: seq<Component>, k: nat, i: nat)
    requires DistinctIds(components) && k < i < |components|
    ensures components[k].id != components[i].id
  {
  }

  /** Where downloads fail, a component is built that would have been carried, and
      nothing else changes. */
  lemma FailedDownloadsOnlyBuild(m: Meter, o: Oracles, shelf: Shelf, before: set<string>, ctx: Context,
                                 arrives: seq<bool>, i: nat)
    requires |arrives| == |ctx.contract.components| && i < |arrives|
    ensures var c := ctx.contract.components[i];
      DecidedThen(m, o, shelf, before, ctx, arrives, i) ==
      if Needs(ctx, c).Some? && !AtHand(before, shelf, ctx, arrives, i + 1, Needs(ctx, c).value) then ToBuild
      else DecideOne(m, Reaching(o, true), shelf, ctx, c)
  {
    hide Candidate, CheckOrigin, CheckImage, OriginOf, AtHand;
    var c := ctx.contract.components[i];
    match Candidate(ctx, c)
    case None =>
    case Some(entry) =>
      OnlyFetched(m, o, shelf, ctx, c, entry);
  }

  /** What is found out of a component depends on downloads only as far as it needs one. */
  lemma OnlyFetched(m: Meter, o: Oracles, shelf: Shelf, ctx: Context, c: Component, entry: Entry)
    requires ctx.baseline.Some? && entry.Available?
    ensures forall arrives ::
      var origin := OriginOf(ctx.baseline.value, entry);
      Facts(m, Reaching(o, arrives), shelf, ctx, c, entry) ==
        if !c.kind.Player? then CheckImage(o, ctx.contract, entry, origin)
        else if origin.tag == "" then Err(NoSource)
        else if origin.tag !in shelf || !arrives then Err(NotPublished)
        else CheckOrigin(m, o, shelf[origin.tag].files, origin, c, entry)
  {
    hide CheckOrigin, OriginOf;
    if c.kind.Player? {
      OnlyTheReport(m, o, shelf, OriginOf(ctx.baseline.value, entry), c, entry);
    }
  }

  lemma DecidedSteadily(m: Meter, o: Oracles, shelf: Shelf, before: set<string>, ctx: Context,
                        arrives: seq<bool>, i: nat)
    requires |arrives| == |ctx.contract.components| && i < |arrives| && Steady(o, before, ctx, arrives)
    requires forall tag | tag in before :: tag in shelf
    ensures DecidedThen(m, o, shelf, before, ctx, arrives, i) == DecideOne(m, o, shelf, ctx, ctx.contract.components[i])
  {
    hide Candidate, CheckOrigin, CheckImage, OriginOf;
    var c := ctx.contract.components[i];
    match Candidate(ctx, c)
    case None =>
    case Some(entry) =>
      OnlyFetched(m, o, shelf, ctx, c, entry);
  }

  lemma {:induction false} DecisionAt(m: Meter, o: Oracles, shelf: Shelf, ctx: Context, components: seq<Component>,
                                      c: Component)
    requires c in components && DistinctIds(components)
    ensures var decisions := DecisionsOf(m, o, shelf, ctx, components);
      c.id in decisions && decisions[c.id] == DecideOne(m, o, shelf, ctx, c)
  {
    hide DecideOne;
    var n := |components| - 1;
    if components[n] != c {
      var front := components[..n];
      var i :| 0 <= i < |components| && components[i] == c;
      assert front[i] == c;
      DecisionAt(m, o, shelf, ctx, front, c);
    }
  }

  // ---- the plan of one run -----------------------------------------------------------------

  /** Reads the baseline and the newest release, or gives reuse up entirely when
      either fails. */
  function PlanContext(m: Meter, o: Oracles, shelf: Shelf, contract: Contract, channel: Channel,
                       current: map<string, Inputs.Fingerprint>, pending: set<string>,
                       reuse: bool, baselineTag: string, newestTag: string): Context {
    var none := Context(contract, channel, current, None, None, pending, true);
    if !reuse || baselineTag == "" then none
    else if current.Keys * pending == {} then none.(unavailable := false)
    else
      match LoadRelease(m, o, shelf, baselineTag)
      case Err(_) => none
      case Ok(baseline) =>
        if newestTag == "" || newestTag == baselineTag then
          Context(contract, channel, current, Some(baseline), Some(baseline), pending, false)
        else
          match LoadRelease(m, o, shelf, newestTag)
          case Err(_) => none
          case Ok(newest) => Context(contract, channel, current, Some(baseline), Some(newest), pending, false)
  }

  /** A context with a baseline read both releases it names. */
  lemma ReadContext(m: Meter, o: Oracles, shelf: Shelf, contract: Contract, channel: Channel,
                    current: map<string, Inputs.Fingerprint>, pending: set<string>,
                    reuse: bool, baselineTag: string, newestTag: string)
    ensures var ctx := PlanContext(m, o, shelf, contract, channel, current, pending, reuse, baselineTag, newestTag);
      && ctx.contract == contract && ctx.channel == channel && ctx.current == current && ctx.pending == pending
      && (ctx.baseline.Some? ==>
        && baselineTag != "" && LoadRelease(m, o, shelf, baselineTag) == Ok(ctx.baseline.value)
        && if newestTag == "" || newestTag == baselineTag then ctx.newest == ctx.baseline
           else ctx.newest.Some? && LoadRelease(m, o, shelf, newestTag) == Ok(ctx.newest.value))
  {
    hide LoadRelease;
  }

  lemma InheritedDecision(m: Meter, o: Oracles, shelf: Shelf, ctx: Context, c: Component)
    requires DecideOne(m, o, shelf, ctx, c).ToInherit?
    ensures Candidate(ctx, c).Some? && Facts(m, o, shelf, ctx, c, Candidate(ctx, c).value).Ok?
    ensures DecideOne(m, o, shelf, ctx, c)
         == Carry(ctx, Candidate(ctx, c).value, Facts(m, o, shelf, ctx, c, Candidate(ctx, c).value))
  {
    hide Facts, Candidate;
  }

  // ---- checking the plan again before it is assembled ------------------------------------------

  /** The entry `reverify` rebuilds from an inherited decision. */
  function Recorded(d: Decision): Entry
    requires d.ToInherit?
  {
    Available(Built, d.versionName, Some(d.versionCode), Some(d.channel), Some(d.inputs), d.payload)
  }

  function Reverified(m: Meter, o: Oracles, shelf: Shelf, contract: Contract, c: Component, d: Decision): bool
    requires d.ToInherit?
  {
    var origin := OriginRef(d.source.tag, d.source.commit, d.source.inventorySha256);
    if c.kind.Player? then VerifyOrigin(m, o, shelf, origin, c, Recorded(d)) == Ok(d.payload)
    else CheckImage(o, contract, Recorded(d), origin).Ok?
  }

  /** A plan is accepted again as long as nothing it was verified against changed. */
  lemma PlannedIsReverified(m: Meter, o: Oracles, shelf: Shelf, ctx: Context, c: Component)
    requires DecideOne(m, o, shelf, ctx, c).ToInherit?
    ensures Reverified(m, o, shelf, ctx.contract, c, DecideOne(m, o, shelf, ctx, c))
  {
    var entry := Candidate(ctx, c).value;
    var origin := OriginOf(ctx.baseline.value, entry);
    var d := DecideOne(m, o, shelf, ctx, c);
    if c.kind.Player? {
      FactsRepeat(m, shelf[origin.tag].files, c, entry, Recorded(d), o.report(origin.tag));
    }
  }

  /** Facts established against a recorded entry are established against themselves. */
  lemma FactsRepeat(m: Meter, files: Directory, c: Component, entry: Entry, again: Entry, report: Report)
    requires c.kind.Player? && entry.Available? && again.Available?
    requires PlayerFacts(m, files, c, entry, report).Ok?
    requires again.payload == PlayerFacts(m, files, c, entry, report).value
    requires again.versionName == entry.versionName && again.versionCode == Some(EntryCode(entry))
    ensures PlayerFacts(m, files, c, again, report) == PlayerFacts(m, files, c, entry, report)
  {
    var assets := RecordedAssets(again);
    forall a | a in assets ensures SameBytes(a, FindAsset(assets, a.name)) {
      SameNameSameBytes(m, files, assets, a);
    }
  }

  lemma {:induction false} SameNameSameBytes(m: Meter, files: Directory, assets: seq<Asset>, a: Asset)
    requires a in assets
    requires forall b | b in assets ::
      b.name in files && b.size == m.size(files[b.name]) && b.sha256 == m.sha256(files[b.name])
    ensures SameBytes(a, FindAsset(assets, a.name))
  {
    var last := assets[|assets| - 1];
    if last.name != a.name {
      SameNameSameBytes(m, files, assets[..|assets| - 1], a);
    }
  }
}
