/** What is checked today before a component is carried forward
    (scripts/release/release_reuse.py): exactly when one is, said of the earlier
    release, the report of today's importer over it, and the registry; and what that
    means for every release of a history. */
module Vouched {
  import opened Text
  import opened Versions
  import opened Assemble
  import opened Recheck
  import opened Reuse
  import opened History
  import Inputs
  import Plan

  // ---- what an earlier release and today's answers must say -------------------------------

  /** The first item of an id has this entry. */
  ghost predicate Says(items: seq<Item>, id: string, entry: Entry) {
    exists k | 0 <= k < |items| ::
      items[k].id == id && items[k].entry == entry && forall j | 0 <= j < k :: items[j].id != id
  }

  /** The first build of a platform. */
  ghost predicate IsFirst(components: seq<Verified>, platform: Platform, v: Verified) {
    exists k | 0 <= k < |components| ::
      components[k] == v && v.platform == platform && forall j | 0 <= j < k :: components[j].platform != platform
  }

  /** The last record of a name. */
  ghost predicate IsLast(assets: seq<Asset>, name: string, a: Asset) {
    exists k | 0 <= k < |assets| ::
      assets[k] == a && a.name == name && forall j | k < j < |assets| :: assets[j].name != name
  }

  /** No problem names the platform, and the first build of it is this one. */
  ghost predicate Passes(report: Report, platform: Platform, version: string, code: int) {
    && (forall p | p in report.problems :: p.platform != platform)
    && exists v :: IsFirst(report.components, platform, v) && v.versionName == version && v.versionCode == code
  }

  /** A file is there, as it was last recorded. */
  ghost predicate AsRecorded(m: Meter, files: Directory, recorded: seq<Asset>, name: string) {
    && name in files
    && exists a :: IsLast(recorded, name, a) && a.size == m.size(files[name]) && a.sha256 == m.sha256(files[name])
  }

  /** The inventory read when the release was chosen, if its digest is known, is the one
      there, and it says the release built this very version of the component itself. */
  ghost predicate HeldAsBuilt(m: Meter, files: Directory, sha256: string, id: string, version: string, code: int) {
    && INVENTORY in files && files[INVENTORY].Json?
    && (sha256 == "" || sha256 == m.sha256(files[INVENTORY]))
    && exists held: Entry :: Says(files[INVENTORY].inventory.components, id, held)
         && held.Available? && held.origin.Built? && held.versionName == version && EntryCode(held) == code
  }

  ghost predicate PlayerStands(m: Meter, o: Oracles, shelf: Shelf, origin: OriginRef, c: Component, entry: Entry)
    requires c.kind.Player? && entry.Available?
  {
    && origin.tag != "" && origin.tag in shelf && o.fetched(origin.tag)
    && var files := shelf[origin.tag].files;
       && HeldAsBuilt(m, files, origin.inventorySha256, c.id, entry.versionName, EntryCode(entry))
       && Passes(o.report(origin.tag), Platform(c.kind.family, c.kind.architecture), entry.versionName,
                 EntryCode(entry))
       && forall spec | spec in c.kind.assets ::
            AsRecorded(m, files, RecordedAssets(entry), Expand(spec.name, entry.versionName))
  }

  /** The registry has the digest, under the entry's version and from its commit. */
  ghost predicate ImageStands(o: Oracles, origin: OriginRef, entry: Entry)
    requires entry.Available?
  {
    && entry.payload.Image? && |entry.payload.digest| == 71 && "sha256:" <= entry.payload.digest
    && o.image(entry.payload.digest).Some?
    && o.image(entry.payload.digest).value.version == entry.versionName
    && (origin.commit == "" || o.image(entry.payload.digest).value.revision == origin.commit)
  }

  // ---- reading lists front to back and back to front -----------------------------------------

  lemma {:induction false} FoundFirst(items: seq<Item>, id: string, entry: Entry)
    ensures Says(items, id, entry) <==> FindItem(items, id).Some? && FindItem(items, id).value.entry == entry
  {
    if items != [] {
      var rest := items[1..];
      FoundFirst(rest, id, entry);
      if items[0].id != id {
        if Says(rest, id, entry) {
          var k :| 0 <= k < |rest| && rest[k].id == id && rest[k].entry == entry
            && forall j | 0 <= j < k :: rest[j].id != id;
          assert items[k + 1].id == id && forall j | 0 <= j < k + 1 :: items[j].id != id by {
            forall j | 0 <= j < k + 1 ensures items[j].id != id {
              if j > 0 { assert items[j] == rest[j - 1]; }
            }
          }
        }
        if Says(items, id, entry) {
          var k :| 0 <= k < |items| && items[k].id == id && items[k].entry == entry
            && forall j | 0 <= j < k :: items[j].id != id;
          assert rest[k - 1] == items[k] && forall j | 0 <= j < k - 1 :: rest[j] == items[j + 1];
        }
      } else {
        if Says(items, id, entry) {
          var k :| 0 <= k < |items| && items[k].id == id && items[k].entry == entry
            && forall j | 0 <= j < k :: items[j].id != id;
          assert k == 0;
        }
      }
    }
  }

  lemma {:induction false} VerifiedFirst(components: seq<Verified>, platform: Platform, v: Verified)
    ensures FirstVerified(components, platform) == Some(v) <==> IsFirst(components, platform, v)
  {
    if components != [] {
      var rest := components[1..];
      VerifiedFirst(rest, platform, v);
      if components[0].platform != platform {
        if IsFirst(rest, platform, v) {
          var k :| 0 <= k < |rest| && rest[k] == v && v.platform == platform
            && forall j | 0 <= j < k :: rest[j].platform != platform;
          assert components[k + 1] == v;
          forall j | 0 <= j < k + 1 ensures components[j].platform != platform {
            if j > 0 { assert components[j] == rest[j - 1]; }
          }
        }
        if IsFirst(components, platform, v) {
          var k :| 0 <= k < |components| && components[k] == v && v.platform == platform
            && forall j | 0 <= j < k :: components[j].platform != platform;
          assert rest[k - 1] == components[k] && forall j | 0 <= j < k - 1 :: rest[j] == components[j + 1];
        }
      }
    }
  }

  lemma {:induction false} AssetLast(assets: seq<Asset>, name: string, a: Asset)
    ensures FindAsset(assets, name) == Some(a) <==> IsLast(assets, name, a)
  {
    if assets != [] {
      var front, n := assets[..|assets| - 1], |assets| - 1;
      AssetLast(front, name, a);
      if assets[n].name != name {
        if IsLast(front, name, a) {
          var k :| 0 <= k < |front| && front[k] == a && a.name == name
            && forall j | k < j < |front| :: front[j].name != name;
          assert assets[k] == a;
          forall j | k < j < |assets| ensures assets[j].name != name {
            if j < n { assert assets[j] == front[j]; }
          }
        }
        if IsLast(assets, name, a) {
          var k :| 0 <= k < |assets| && assets[k] == a && a.name == name
            && forall j | k < j < |assets| :: assets[j].name != name;
          assert front[k] == a && forall j | k < j < |front| :: front[j] == assets[j];
        }
      }
    }
  }

  // ---- exactly when a component is carried -----------------------------------------------------

  lemma PassesIs(report: Report, platform: Platform, version: string, code: int)
    ensures Passes(report, platform, version, code) <==>
      && !Rejected(report, platform) && FirstVerified(report.components, platform).Some?
      && FirstVerified(report.components, platform).value.versionName == version
      && FirstVerified(report.components, platform).value.versionCode == code
  {
    forall v
      ensures FirstVerified(report.components, platform) == Some(v) <==> IsFirst(report.components, platform, v)
    {
      VerifiedFirst(report.components, platform, v);
    }
    hide FirstVerified, IsFirst;
  }

  lemma AsRecordedIs(m: Meter, files: Directory, recorded: seq<Asset>, name: string, asset: Asset)
    requires asset.name == name && name in files
    requires asset.size == m.size(files[name]) && asset.sha256 == m.sha256(files[name])
    ensures AsRecorded(m, files, recorded, name) <==> SameBytes(asset, FindAsset(recorded, name))
  {
    forall a ensures FindAsset(recorded, name) == Some(a) <==> IsLast(recorded, name, a) {
      AssetLast(recorded, name, a);
    }
    hide FindAsset, IsLast;
  }

  lemma HeldIs(m: Meter, files: Directory, sha256: string, id: string, version: string, code: int)
    ensures HeldAsBuilt(m, files, sha256, id, version, code) <==>
      && ReadInventory(files).Some? && !(sha256 != "" && m.sha256(files[INVENTORY]) != sha256)
      && var held := FindItem(ReadInventory(files).value.components, id);
         && held.Some? && held.value.entry.Available? && held.value.entry.origin.Built?
         && held.value.entry.versionName == version && EntryCode(held.value.entry) == code
  {
    hide EntryCode;
    if ReadInventory(files).Some? {
      var items := ReadInventory(files).value.components;
      forall e ensures Says(items, id, e) <==> FindItem(items, id).Some? && FindItem(items, id).value.entry == e {
        FoundFirst(items, id, e);
      }
    }
    hide Says, FindItem;
  }

  /** Files that are all as recorded are what their measurements say. */
  lemma FilesStand(m: Meter, files: Directory, specs: seq<AssetSpec>, version: string, recorded: seq<Asset>)
    requires forall name | name in NamesOf(specs, version) :: name in files
    ensures (forall spec | spec in specs :: AsRecorded(m, files, recorded, Expand(spec.name, version))) <==>
      forall a | a in Measure(m, files, specs, version) :: SameBytes(a, FindAsset(recorded, a.name))
  {
    hide AsRecorded, SameBytes, Expand;
    var assets := Measure(m, files, specs, version);
    forall i | 0 <= i < |specs|
      ensures AsRecorded(m, files, recorded, Expand(specs[i].name, version)) <==>
        SameBytes(assets[i], FindAsset(recorded, assets[i].name))
    {
      assert NamesOf(specs, version)[i] in NamesOf(specs, version);
      AsRecordedIs(m, files, recorded, Expand(specs[i].name, version), assets[i]);
    }
    forall a | a in assets ensures exists i | 0 <= i < |specs| :: a == assets[i] {
      var i :| 0 <= i < |assets| && assets[i] == a;
    }
    if forall a | a in assets :: SameBytes(a, FindAsset(recorded, a.name)) {
      forall spec | spec in specs ensures AsRecorded(m, files, recorded, Expand(spec.name, version)) {
        var i :| 0 <= i < |specs| && specs[i] == spec;
        assert assets[i] in assets;
      }
    }
    if forall spec | spec in specs :: AsRecorded(m, files, recorded, Expand(spec.name, version)) {
      forall a | a in assets ensures SameBytes(a, FindAsset(recorded, a.name)) {
        var i :| 0 <= i < |specs| && a == assets[i];
        assert specs[i] in specs;
      }
    }
  }

  lemma PlayerFactsExactly(m: Meter, files: Directory, c: Component, entry: Entry, report: Report)
    requires c.kind.Player? && entry.Available?
    ensures PlayerFacts(m, files, c, entry, report).Ok? <==>
      && Passes(report, Platform(c.kind.family, c.kind.architecture), entry.versionName, EntryCode(entry))
      && forall spec | spec in c.kind.assets ::
           AsRecorded(m, files, RecordedAssets(entry), Expand(spec.name, entry.versionName))
  {
    hide Passes, AsRecorded, Rejected, SameBytes, FindAsset, Measure, NamesOf, EntryCode, Expand;
    var specs, version := c.kind.assets, entry.versionName;
    PassesIs(report, Platform(c.kind.family, c.kind.architecture), version, EntryCode(entry));
    if forall spec | spec in specs :: AsRecorded(m, files, RecordedAssets(entry), Expand(spec.name, version)) {
      NamesAreThere(m, files, specs, version, RecordedAssets(entry));
    }
    if forall name | name in NamesOf(specs, version) :: name in files {
      FilesStand(m, files, specs, version, RecordedAssets(entry));
    }
  }

  lemma NamesAreThere(m: Meter, files: Directory, specs: seq<AssetSpec>, version: string, recorded: seq<Asset>)
    requires forall spec | spec in specs :: AsRecorded(m, files, recorded, Expand(spec.name, version))
    ensures forall name | name in NamesOf(specs, version) :: name in files
  {
    hide Expand, IsLast;
    forall name | name in NamesOf(specs, version) ensures name in files {
      var i :| 0 <= i < |specs| && NamesOf(specs, version)[i] == name;
      assert specs[i] in specs;
    }
  }

  /** A player is believed exactly when its release is at hand, holds it as built, and
      passes today's importer with every file as it was recorded. */
  lemma VerifiesExactly(m: Meter, o: Oracles, shelf: Shelf, origin: OriginRef, c: Component, entry: Entry)
    requires c.kind.Player? && entry.Available?
    ensures VerifyOrigin(m, o, shelf, origin, c, entry).Ok? <==> PlayerStands(m, o, shelf, origin, c, entry)
  {
    hide HeldAsBuilt, Passes, AsRecorded, PlayerFacts, FindItem, ReadInventory, EntryCode;
    if origin.tag in shelf {
      var files := shelf[origin.tag].files;
      HeldIs(m, files, origin.inventorySha256, c.id, entry.versionName, EntryCode(entry));
      PlayerFactsExactly(m, files, c, entry, o.report(origin.tag));
    }
  }

  lemma ImageExactly(o: Oracles, contract: Contract, entry: Entry, origin: OriginRef)
    requires entry.Available?
    ensures CheckImage(o, contract, entry, origin).Ok? <==> ImageStands(o, origin, entry)
  {
  }

  ghost predicate Stands(m: Meter, o: Oracles, shelf: Shelf, origin: OriginRef, c: Component, entry: Entry)
    requires entry.Available?
  {
    if c.kind.Player? then PlayerStands(m, o, shelf, origin, c, entry) else ImageStands(o, origin, entry)
  }

  /** The release followed lists a build of the component from the same inputs, that
      the channel may hold and the nearest release has no newer build of. */
  ghost predicate MayCarry(ctx: Context, c: Component, e: Entry) {
    && ctx.baseline.Some? && Says(ctx.baseline.value.inventory.components, c.id, e) && e.Available?
    && c.id in ctx.current && e.inputs.Some? && e.inputs.value.schema == 1 && e.inputs.value.digest != ""
    && e.inputs.value.digest == ctx.current[c.id].digest
    && (EntryChannel(e) == Some(Stable) || EntryChannel(e) == Some(ctx.channel))
    && (ctx.newest.Some? && ctx.newest.value.tag != ctx.baseline.value.tag ==>
          forall later: Entry | Says(ctx.newest.value.inventory.components, c.id, later) && later.Available? ::
            EntryCode(later) <= EntryCode(e))
  }

  lemma MayCarryIs(ctx: Context, c: Component, e: Entry)
    ensures MayCarry(ctx, c, e) && c.id in ctx.pending && !ctx.unavailable <==> Candidate(ctx, c) == Some(e)
  {
    hide Says, FindItem, EntryCode, EntryChannel;
    if ctx.baseline.Some? {
      FoundFirst(ctx.baseline.value.inventory.components, c.id, e);
    }
    if ctx.newest.Some? {
      forall later ensures Says(ctx.newest.value.inventory.components, c.id, later) <==>
        FindItem(ctx.newest.value.inventory.components, c.id).Some?
        && FindItem(ctx.newest.value.inventory.components, c.id).value.entry == later
      {
        FoundFirst(ctx.newest.value.inventory.components, c.id, later);
      }
    }
  }

  /** A component is carried forward exactly when it is still to be had, reuse applies,
      the release followed may be carried from, and what it recorded stands today. */
  lemma CarriedExactly(m: Meter, o: Oracles, shelf: Shelf, ctx: Context, c: Component)
    ensures DecideOne(m, o, shelf, ctx, c).ToInherit? <==>
      && c.id in ctx.pending && !ctx.unavailable
      && exists e :: MayCarry(ctx, c, e) && Stands(m, o, shelf, OriginOf(ctx.baseline.value, e), c, e)
  {
    hide MayCarry, PlayerStands, ImageStands, Candidate, VerifyOrigin, CheckImage, OriginOf;
    forall e ensures MayCarry(ctx, c, e) && c.id in ctx.pending && !ctx.unavailable <==> Candidate(ctx, c) == Some(e) {
      MayCarryIs(ctx, c, e);
    }
    match Candidate(ctx, c)
    case None =>
    case Some(e) =>
      var origin := OriginOf(ctx.baseline.value, e);
      assert MayCarry(ctx, c, e);
      ImageExactly(o, ctx.contract, e, origin);
      if c.kind.Player? { VerifiesExactly(m, o, shelf, origin, c, e); }
  }

  lemma CarriedFrom(m: Meter, o: Oracles, shelf: Shelf, ctx: Context, c: Component) returns (e: Entry)
    requires DecideOne(m, o, shelf, ctx, c).ToInherit?
    ensures MayCarry(ctx, c, e) && e.Available? && ctx.baseline.Some?
    ensures Stands(m, o, shelf, OriginOf(ctx.baseline.value, e), c, e)
  {
    hide DecideOne, Stands, EntryCode, EntryChannel, Says, OriginOf;
    CarriedExactly(m, o, shelf, ctx, c);
    e :| MayCarry(ctx, c, e) && Stands(m, o, shelf, OriginOf(ctx.baseline.value, e), c, e);
  }

  /** One asset for each file the contract names, as it is there now. */
  ghost predicate Measures(m: Meter, files: Directory, specs: seq<AssetSpec>, version: string, payload: Payload) {
    && payload.Assets? && |payload.assets| == |specs|
    && forall i | 0 <= i < |specs| ::
         var a := payload.assets[i];
         && a.name == Expand(specs[i].name, version) && a.role == specs[i].role && a.name in files
         && a.size == m.size(files[a.name]) && a.sha256 == m.sha256(files[a.name])
  }

  lemma MeasuresIs(m: Meter, files: Directory, specs: seq<AssetSpec>, version: string, payload: Payload)
    requires forall name | name in NamesOf(specs, version) :: name in files
    ensures Measures(m, files, specs, version, payload) <==> payload == Assets(Measure(m, files, specs, version))
  {
    hide Expand;
    var assets := Measure(m, files, specs, version);
    forall i | 0 <= i < |specs| ensures assets[i].name == Expand(specs[i].name, version) && assets[i].name in files {
      assert NamesOf(specs, version)[i] in NamesOf(specs, version);
    }
    if Measures(m, files, specs, version, payload) {
      forall i | 0 <= i < |specs| ensures payload.assets[i] == assets[i] {
      }
    }
  }

  /** And then the plan says of it what that release recorded, where it is, and what
      its files measure, or its image is, today. */
  lemma CarriedAs(m: Meter, o: Oracles, shelf: Shelf, ctx: Context, c: Component, e: Entry)
    requires DecideOne(m, o, shelf, ctx, c).ToInherit? && MayCarry(ctx, c, e)
    ensures var d, origin := DecideOne(m, o, shelf, ctx, c), OriginOf(ctx.baseline.value, e);
      && d.versionName == e.versionName && d.versionCode == EntryCode(e) && Some(d.channel) == EntryChannel(e)
      && e.inputs == Some(d.inputs)
      && d.source == Source(origin.tag, origin.commit, origin.inventorySha256, ctx.contract.releases + origin.tag)
      && match c.kind
         case ServerImage => e.payload.Image?
           && d.payload == Image(ctx.contract.serverImage, e.versionName, e.payload.digest)
         case Player(_, _, specs) =>
           origin.tag in shelf && Measures(m, shelf[origin.tag].files, specs, e.versionName, d.payload)
  {
    hide MayCarry, PlayerStands, ImageStands, Candidate, OriginOf, CheckOrigin, CheckImage, Expand, Measures, Measure;
    InheritedDecision(m, o, shelf, ctx, c);
    assert Candidate(ctx, c) == Some(e) by { PendingWhenCarried(m, o, shelf, ctx, c, e); }
    var origin := OriginOf(ctx.baseline.value, e);
    if c.kind.Player? {
      OriginPayload(m, o, shelf[origin.tag].files, origin, c, e);
      MeasuresIs(m, shelf[origin.tag].files, c.kind.assets, e.versionName, DecideOne(m, o, shelf, ctx, c).payload);
    } else {
      ImagePayload(o, ctx.contract, e, origin);
    }
  }

  lemma PendingWhenCarried(m: Meter, o: Oracles, shelf: Shelf, ctx: Context, c: Component, e: Entry)
    requires DecideOne(m, o, shelf, ctx, c).ToInherit? && MayCarry(ctx, c, e)
    ensures Candidate(ctx, c) == Some(e)
  {
    hide MayCarry, Facts, Stands;
    CarriedExactly(m, o, shelf, ctx, c);
    MayCarryIs(ctx, c, e);
  }

  /** The plan is accepted again exactly while what it was decided on stands, and a
      player's files still measure as planned. */
  lemma ReverifiedExactly(m: Meter, o: Oracles, shelf: Shelf, contract: Contract, c: Component, d: Decision)
    requires d.ToInherit?
    ensures var origin, entry := OriginRef(d.source.tag, d.source.commit, d.source.inventorySha256), Reuse.Recorded(d);
      Reverified(m, o, shelf, contract, c, d) <==>
        && Stands(m, o, shelf, origin, c, entry)
        && (c.kind.Player? ==>
             Measures(m, shelf[d.source.tag].files, c.kind.assets, d.versionName, d.payload))
  {
    hide PlayerStands, ImageStands, CheckOrigin, CheckImage, Measures, Measure;
    var origin, entry := OriginRef(d.source.tag, d.source.commit, d.source.inventorySha256), Reuse.Recorded(d);
    ImageExactly(o, contract, entry, origin);
    if c.kind.Player? {
      VerifiesExactly(m, o, shelf, origin, c, entry);
      if VerifyOrigin(m, o, shelf, origin, c, entry).Ok? {
        OriginPayload(m, o, shelf[origin.tag].files, origin, c, entry);
        MeasuresIs(m, shelf[origin.tag].files, c.kind.assets, d.versionName, d.payload);
      }
    }
  }

  // ---- reading what is carried from -----------------------------------------------------------

  /** A release can be read back: it is there, with an inventory of its own that names
      the commit its tag names. */
  ghost predicate Readable(o: Oracles, shelf: Shelf, tag: string) {
    && tag in shelf && o.fetched(tag) && INVENTORY in shelf[tag].files && shelf[tag].files[INVENTORY].Json?
    && shelf[tag].files[INVENTORY].inventory.tag == tag
    && shelf[tag].files[INVENTORY].inventory.commit == shelf[tag].commit != ""
  }

  lemma ReadExactly(m: Meter, o: Oracles, shelf: Shelf, tag: string)
    ensures LoadRelease(m, o, shelf, tag).Ok? <==> Readable(o, shelf, tag)
    ensures Readable(o, shelf, tag) ==>
      LoadRelease(m, o, shelf, tag).value
      == Release(tag, shelf[tag].files[INVENTORY].inventory, m.sha256(shelf[tag].files[INVENTORY]))
  {
  }

  /** Reuse is given up exactly when it is off, there is nothing to follow, or a release
      that is needed cannot be read; where nothing is pending, none is. */
  lemma GivenUpExactly(m: Meter, o: Oracles, shelf: Shelf, contract: Contract, channel: Channel,
                       current: map<string, Inputs.Fingerprint>, pending: set<string>,
                       reuse: bool, followed: string, nearest: string)
    ensures var ctx := PlanContext(m, o, shelf, contract, channel, current, pending, reuse, followed, nearest);
      var needed := exists id :: id in current && id in pending;
      var readable := Readable(o, shelf, followed) && (nearest != "" ==> Readable(o, shelf, nearest));
      && (ctx.unavailable <==> !reuse || followed == "" || (needed && !readable))
      && (ctx.baseline.Some? <==> reuse && followed != "" && needed && readable)
      && (ctx.baseline.Some? ==>
            && ctx.baseline.value.tag == followed && ctx.newest.Some?
            && ctx.newest.value.tag == if nearest == "" then followed else nearest)
  {
    hide LoadRelease, Readable;
    ReadExactly(m, o, shelf, followed);
    ReadExactly(m, o, shelf, nearest);
    Tagged(m, o, shelf, followed);
    Tagged(m, o, shelf, nearest);
    var both := current.Keys * pending;
    assert forall id :: id in both <==> id in current && id in pending;
    if both != {} {
      var id :| id in both;
    }
  }

  lemma Tagged(m: Meter, o: Oracles, shelf: Shelf, tag: string)
    ensures LoadRelease(m, o, shelf, tag).Ok? ==> LoadRelease(m, o, shelf, tag).value.tag == tag
  {
  }

  // ---- in every history ------------------------------------------------------------------------

  /** A published release carries a component exactly when its plan had it to carry and
      what it was carried from stood when it was planned. */
  lemma InheritedExactly(w: World, h: seq<Past>, i: nat, c: Component)
    requires Valid(w, h) && i < |h| && c in h[i].run.contract.components && DistinctTags(h[..i])
    ensures var e, ctx := EntryAt(h[i], c.id), ContextOf(w, h[..i], h[i]);
      e.Available? && e.origin.Inherited? <==>
        && c.id in h[i].run.pending && !ctx.unavailable
        && exists was :: MayCarry(ctx, c, was)
             && Stands(w.m, h[i].run.o, ShelfOf(h[..i]), OriginOf(ctx.baseline.value, was), c, was)
  {
    hide Publishes, ContextOf, ShelfOf, DecideOne, Status, MayCarry, Stands, EntryAt;
    PrefixValid(w, h, i);
    var g, p := h[..i], h[i];
    EntryStatus(w, g, p, c);
    CarriedExactly(w.m, p.run.o, ShelfOf(g), ContextOf(w, g, p), c);
    PendingOf(w, g, p);
    StatusCarries(w.m, JobOf(w, g, p), p.version.code, p.run.assets, c, EntryAt(p, c.id));
  }

  lemma PendingOf(w: World, h: seq<Past>, p: Past)
    requires DistinctTags(h)
    ensures ContextOf(w, h, p).pending == p.run.pending
  {
    hide CurrentOf, LoadRelease;
  }

  lemma StatusCarries(m: Meter, job: Job, code: nat, files: Directory, c: Component, e: Entry)
    requires Status(m, job, code, files, c) == Ok(e)
    ensures Carried(job.plan, c.id) <==> e.Available? && e.origin.Inherited?
  {
    hide Measure, Rejected;
  }

  /** Whatever a release carries passed on the day it was planned: a player's platform
      is in the importer's report over the release that built it, at its version and
      code, and among its problems is none of that platform; the Server's image was in
      the registry, as that version from the commit that built it. */
  lemma CarriedPassedToday(w: World, h: seq<Past>, i: nat, c: Component)
    requires Sane(w) && Valid(w, h) && i < |h| && c in h[i].run.contract.components
    requires EntryAt(h[i], c.id).Available? && EntryAt(h[i], c.id).origin.Inherited?
    ensures var e, o := EntryAt(h[i], c.id), h[i].run.o;
      var source := e.origin.source;
      match c.kind
      case Player(family, architecture, _) =>
        && e.versionCode.Some?
        && Passes(o.report(source.tag), Platform(family, architecture), e.versionName, e.versionCode.value)
      case ServerImage =>
        && e.payload.Image? && o.image(e.payload.digest) == Some(Annotations(e.versionName, source.commit))
        && source.commit != ""
  {
    hide Publishes, ContextOf, ShelfOf, DecideOne, Status, MayCarry, Passes, EntryAt, Candidate, Facts, Valid;
    hide HeldAsBuilt, AsRecorded, OriginOf, EntryCode;
    PrefixValid(w, h, i);
    var g, p := h[..i], h[i];
    Tags(w, g);
    var ctx := ContextOf(w, g, p);
    InheritedFromPlan(w, g, p, c);
    var was := CarriedFrom(w.m, p.run.o, ShelfOf(g), ctx, c);
    CarriedAs(w.m, p.run.o, ShelfOf(g), ctx, c, was);
    BuilderCommits(w, h, i, c);
  }

  lemma BuilderCommits(w: World, h: seq<Past>, i: nat, c: Component)
    requires Sane(w) && Valid(w, h) && i < |h| && c in h[i].run.contract.components
    requires EntryAt(h[i], c.id).Available? && EntryAt(h[i], c.id).origin.Inherited?
    ensures EntryAt(h[i], c.id).origin.source.commit != ""
  {
    hide Publishes, EntryAt, BuiltHere, Valid;
    ValidKeepsInv(w, h);
    assert Grounded(w, h, i, c);
    var j :| 0 <= j < i && SuppliedBy(w, EntryAt(h[i], c.id), h[j], c);
    PrefixValid(w, h, j);
    Tags(w, h[..j]);
    OwnInventory(w, h[..j], h[j]);
  }

  /** An inventory from before codes and channels were recorded reads the same: they
      are those of the version's name. */
  lemma OldEntriesReadTheSame(w: World, h: seq<Past>, i: nat, c: Component)
    requires Sane(w) && Valid(w, h) && i < |h| && c in h[i].run.contract.components
    requires EntryAt(h[i], c.id).Available?
    ensures var e := EntryAt(h[i], c.id);
      && EntryCode(e.(versionCode := None)) == EntryCode(e) && EntryChannel(e.(channel := None)) == EntryChannel(e)
  {
    hide Publishes, EntryAt, Valid, EntryCode, EntryChannel, Measure;
    ValidKeepsInv(w, h);
    assert Grounded(w, h, i, c);
    var e, j := EntryAt(h[i], c.id), i;
    if e.origin.Inherited? {
      j :| 0 <= j < i && SuppliedBy(w, e, h[j], c);
    }
    BuiltCode(w, h[j], c);
    ReadsTheSame(w, h, j, e);
  }

  lemma ReadsTheSame(w: World, h: seq<Past>, j: nat, e: Entry)
    requires Valid(w, h) && j < |h| && e.Available? && e.versionName == h[j].run.version
    requires e.versionCode == Some(h[j].version.code) && e.channel == Some(h[j].Channel())
    ensures EntryCode(e.(versionCode := None)) == EntryCode(e) && EntryChannel(e.(channel := None)) == EntryChannel(e)
  {
    hide Publishes, Valid, ParseVersion, ParseTag, Plan.FromTag;
    PrefixValid(w, h, j);
    Tags(w, h[..j]);
    Ordered(w, h[..j], h[j]);
    Plan.TagName(h[j].version);
    Plan.CodeSlot(h[j].version);
  }
}
