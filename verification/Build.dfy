/** `build` and `resume` of scripts/release/release_assemble.py over a directory,
    and the theorem that joins them to `verify`: what `build` writes, `verify` accepts. */
module Build {
  import opened Text
  import opened Versions
  import opened Assemble
  import opened Recheck
  import Inputs

  class Folder {
    var files: Directory

    constructor (files: Directory)
      ensures this.files == files
    {
      this.files := files;
    }
  }

  /** Every component has a status, and every required one is available. */
  ghost predicate Buildable(m: Meter, job: Job, files: Directory) {
    && Consistent(job, files)
    && var code := ParseTag("v" + job.version).value.code;
       forall c | c in job.contract.components ::
         && Status(m, job, code, files, c).Ok?
         && (job.channel in c.required ==> Status(m, job, code, files, c).value.Available?)
  }

  // ---- build -----------------------------------------------------------------------------

  method BuildRelease(m: Meter, job: Job, folder: Folder) returns (r: Result<Inventory, BuildError>)
    requires WellFormed(job.contract, job.version)
    modifies folder
    ensures r.Ok? <==> Buildable(m, job, old(folder.files))
    ensures r.Ok? ==> Assembled(m, job, old(folder.files), r.value, folder.files)
    ensures r.Err? ==> folder.files == old(folder.files)
  {
    hide Buildable, Assembled, WellFormed;
    var checked := Check(m, job, folder.files);
    if checked.Err? {
      return Err(checked.error);
    }
    var inventory := Write(m, job, checked.value, folder);
    r := Ok(inventory);
  }

  /** Everything that can refuse a release, before any file is touched. */
  method Check(m: Meter, job: Job, files: Directory) returns (r: Result<seq<Item>, BuildError>)
    ensures r.Ok? <==> Buildable(m, job, files)
    ensures r.Ok? ==> Listed(m, job, files, r.value)
  {
    hide ParseTag, Status;
    var parsed := ParseTag("v" + job.version);
    if parsed.None? {
      return Err(BadVersion);
    }
    if parsed.value.channel != Some(job.channel) {
      return Err(WrongChannel);
    }
    if job.report.version != job.version || job.report.channel != job.channel {
      return Err(WrongReport);
    }
    var allowed := {INVENTORY, CHECKSUMS} + set c, name | c in job.contract.components
      && name in Names(c, job.version) :: name;
    if !(files.Keys <= allowed) {
      return Err(StrayFile);
    }
    var listed := Statuses(m, job, parsed.value.code, files);
    if listed.Err? {
      return Err(listed.error);
    }
    var items := listed.value;
    RequiredListed(m, job, parsed.value.code, files, items);
    if exists item | item in items :: item.required && item.entry.Unavailable? {
      return Err(MissingRequired);
    }
    r := Ok(items);
  }

  /** The items of a release whose every required component is available. */
  ghost predicate Listed(m: Meter, job: Job, files: Directory, items: seq<Item>) {
    && Consistent(job, files)
    && ListsAll(m, job, ParseTag("v" + job.version).value.code, files, items)
    && forall item | item in items && item.required :: item.entry.Available?
  }

  lemma RequiredListed(m: Meter, job: Job, code: nat, files: Directory, items: seq<Item>)
    requires ListsAll(m, job, code, files, items)
    ensures (forall item | item in items && item.required :: item.entry.Available?) <==>
      forall c | c in job.contract.components && job.channel in c.required ::
        Status(m, job, code, files, c).Ok? && Status(m, job, code, files, c).value.Available?
  {
    hide Status;
    var components := job.contract.components;
    assert forall i | 0 <= i < |items| :: Lists(m, job, code, files, components[i], items[i]) && items[i] in items;
    forall c | c in components && job.channel in c.required
      ensures exists item :: item in items && item.required && Status(m, job, code, files, c) == Ok(item.entry)
    {
      var i :| 0 <= i < |components| && components[i] == c;
      assert items[i] in items;
    }
    forall item | item in items && item.required
      ensures exists c ::
        c in components && job.channel in c.required && Status(m, job, code, files, c) == Ok(item.entry)
    {
      var i :| 0 <= i < |items| && items[i] == item;
      assert components[i] in components;
    }
  }

  /** Drops what did not verify, and writes the inventory and the checksums. */
  method Write(m: Meter, job: Job, items: seq<Item>, folder: Folder) returns (inventory: Inventory)
    requires WellFormed(job.contract, job.version) && Listed(m, job, folder.files, items)
    modifies folder
    ensures Assembled(m, job, old(folder.files), inventory, folder.files)
  {
    hide ParseTag, Status, Records, ChecksumText, WellFormed, Lists;
    ghost var before := folder.files;
    var code := ParseTag("v" + job.version).value.code;
    Drop(job, items, folder);
    var own := set item, asset | item in items && CarriesFiles(item.entry) && asset in item.entry.payload.assets ::
      asset.name;
    var published := SortNames(own);
    OwnFilesAreKept(m, job, code, before, items);
    assert forall name | name in published :: name in Elements(published);
    var kept := folder.files;
    var assets := seq(|published|, i requires 0 <= i < |published| && published[i] in kept =>
      Recorded(published[i], m.size(kept[published[i]]), m.sha256(kept[published[i]])));
    RecordsPublished(m, before, kept, published, assets);
    inventory := Inventory(job.version, "v" + job.version, job.channel, code, job.commit, items, assets);
    folder.files := folder.files[INVENTORY := Json(inventory)];
    var names := SortNames(folder.files.Keys - {CHECKSUMS});
    AscendingIsUnique(names, Sorted(folder.files.Keys - {CHECKSUMS}));
    folder.files := folder.files[CHECKSUMS := Bytes(ChecksumText(m, folder.files, names))];
  }

  /** The inventory entry of every component, or the first conflict. */
  method Statuses(m: Meter, job: Job, code: nat, files: Directory) returns (r: Result<seq<Item>, BuildError>)
    ensures r.Ok? <==> forall c | c in job.contract.components :: Status(m, job, code, files, c).Ok?
    ensures r.Ok? ==> ListsAll(m, job, code, files, r.value)
  {
    hide Status;
    var items := [];
    var components := job.contract.components;
    for i := 0 to |components|
      invariant |items| == i
      invariant forall j | 0 <= j < i :: Lists(m, job, code, files, components[j], items[j])
    {
      var c := components[i];
      var status := Status(m, job, code, files, c);
      if status.Err? {
        return Err(status.error);
      }
      items := items + [Item(c.id, job.channel in c.required, PlatformOf(c), status.value)];
    }
    r := Ok(items);
  }

  /** The files of a component, or the digest of its image, are there. */
  predicate WasBuilt(job: Job, files: Directory, c: Component) {
    match c.kind
    case ServerImage => job.serverDigest != ""
    case Player(_, _, specs) => exists spec | spec in specs :: Expand(spec.name, job.version) in files
  }

  /** All of a component's files are there, and the importer verified it without a
      problem; or its image is. */
  ghost predicate BuiltWhole(job: Job, files: Directory, c: Component) {
    match c.kind
    case ServerImage => job.serverDigest != ""
    case Player(family, architecture, specs) =>
      && (forall spec | spec in specs :: Expand(spec.name, job.version) in files)
      && (exists v :: v in job.report.components && v.platform == Platform(family, architecture))
      && forall p | p in job.report.problems :: p.platform != Platform(family, architecture)
  }

  /** A component is refused exactly when it is carried forward and was built too;
      carried when it is carried and was not; and otherwise listed as built exactly when
      all of it was built and verified, with what was built. */
  lemma StatusExactly(m: Meter, job: Job, code: nat, files: Directory, c: Component)
    ensures var r, carried := Status(m, job, code, files, c), Carried(job.plan, c.id);
      && (r.Err? <==> carried && WasBuilt(job, files, c)) && (r.Err? ==> r.error == CarriedAndBuilt(c.id))
      && (r.Ok? && carried ==> r.value == InheritedEntry(job.plan.decisions[c.id]))
      && (!carried ==> (r.value.Available? <==> BuiltWhole(job, files, c)))
      && (!carried && r.value.Available? ==>
            && r.value.origin.Built? && r.value.inputs == Inputs.Lookup(job.plan.inputs, c.id)
            && match c.kind
               case ServerImage =>
                 && r.value.versionName == job.version && r.value.versionCode == Some(code)
                 && r.value.channel == Some(job.channel)
                 && r.value.payload == Image(job.contract.serverImage, job.version, job.serverDigest)
               case Player(family, architecture, specs) =>
                 exists v :: v in job.report.components && v.platform == Platform(family, architecture)
                   && r.value.versionName == v.versionName && r.value.versionCode == Some(v.versionCode)
                   && r.value.channel == Some(v.channel))
  {
    hide Measure, Expand;
    match c.kind
    case ServerImage =>
    case Player(family, architecture, specs) =>
      var names := NamesOf(specs, job.version);
      forall spec | spec in specs ensures Expand(spec.name, job.version) in names {
        var i :| 0 <= i < |specs| && specs[i] == spec;
        assert names[i] in names;
      }
      forall name | name in names ensures exists spec :: spec in specs && Expand(spec.name, job.version) == name {
        var i :| 0 <= i < |names| && names[i] == name;
        assert specs[i] in specs;
      }
  }

  /** A release can be built exactly when its version is one of its channel, the report
      is about it, every file is an asset of the contract or one the release writes
      itself, nothing carried forward was built too, and what the channel requires is
      carried or was built whole. */
  lemma BuildsExactly(m: Meter, job: Job, files: Directory)
    ensures Buildable(m, job, files) <==>
      && ParseTag("v" + job.version).Some? && ParseTag("v" + job.version).value.channel == Some(job.channel)
      && job.report.version == job.version && job.report.channel == job.channel
      && (forall name | name in files :: name == "tilecast-release.json" || name == "SHA256SUMS"
            || exists c :: c in job.contract.components && name in Names(c, job.version))
      && (forall c | c in job.contract.components :: !(Carried(job.plan, c.id) && WasBuilt(job, files, c)))
      && (forall c | c in job.contract.components && job.channel in c.required ::
            Carried(job.plan, c.id) || BuiltWhole(job, files, c))
  {
    hide ParseTag, Status, WasBuilt, BuiltWhole, Carried, Names;
    if ParseTag("v" + job.version).Some? {
      var code := ParseTag("v" + job.version).value.code;
      forall c | c in job.contract.components
        ensures Status(m, job, code, files, c).Err? <==> Carried(job.plan, c.id) && WasBuilt(job, files, c)
        ensures Status(m, job, code, files, c).Ok? ==>
          (Status(m, job, code, files, c).value.Available? <==> Carried(job.plan, c.id) || BuiltWhole(job, files, c))
      {
        StatusExactly(m, job, code, files, c);
      }
    }
  }

  ghost predicate DroppedUpTo(job: Job, items: seq<Item>, n: nat, name: string)
    requires n <= |items| == |job.contract.components|
  {
    exists i | 0 <= i < n :: items[i].entry.Unavailable? && name in Names(job.contract.components[i], job.version)
  }

  /** Removes the files of components that did not verify. */
  method Drop(job: Job, items: seq<Item>, folder: Folder)
    requires |items| == |job.contract.components|
    modifies folder
    ensures folder.files == Kept(job, items, old(folder.files))
  {
    ghost var before := folder.files;
    for i := 0 to |items|
      invariant folder.files == map name | name in before && !DroppedUpTo(job, items, i, name) :: before[name]
    {
      if items[i].entry.Unavailable? {
        var names := Names(job.contract.components[i], job.version);
        folder.files := map name | name in folder.files && name !in names :: folder.files[name];
      }
      assert forall name :: DroppedUpTo(job, items, i + 1, name) <==>
        DroppedUpTo(job, items, i, name)
        || (items[i].entry.Unavailable? && name in Names(job.contract.components[i], job.version));
    }
    assert forall name :: DroppedUpTo(job, items, |items|, name) <==> Dropped(job, items, name);
  }

  lemma RecordsPublished(m: Meter, before: Directory, after: Directory, published: seq<string>, assets: seq<Recorded>)
    requires |assets| == |published|
    requires forall name | name in published :: name in before && name in after && after[name] == before[name]
    requires forall i | 0 <= i < |published| ::
      assets[i] == Recorded(published[i], m.size(after[published[i]]), m.sha256(after[published[i]]))
    ensures Records(m, before, Elements(published), assets)
  {
    forall name | name in published ensures name in (set a | a in assets :: a.name) {
      var i :| 0 <= i < |published| && published[i] == name;
      assert assets[i] in assets;
    }
  }

  /** What can be built has an assembled release. */
  lemma Assemblable(m: Meter, job: Job, files: Directory) returns (inventory: Inventory, after: Directory)
    requires WellFormed(job.contract, job.version) && Buildable(m, job, files)
    ensures Assembled(m, job, files, inventory, after)
  {
    hide Status, ParseTag, WellFormed, Records, ChecksumText;
    var code, components := ParseTag("v" + job.version).value.code, job.contract.components;
    var items := seq(|components|, i requires 0 <= i < |components| =>
      Item(components[i].id, job.channel in components[i].required, PlatformOf(components[i]),
           Status(m, job, code, files, components[i]).value));
    assert ListsAll(m, job, code, files, items) by {
      forall i | 0 <= i < |items| ensures Lists(m, job, code, files, components[i], items[i]) {
        assert components[i] in components;
      }
    }
    forall item | item in items && item.required ensures item.entry.Available? {
      var i :| 0 <= i < |items| && items[i] == item;
      assert components[i] in components;
    }
    var own := OwnNames(items);
    var published := Sorted(own);
    OwnFilesAreKept(m, job, code, files, items);
    forall name | name in published ensures name in files { assert name in Elements(published); }
    var assets := seq(|published|, i requires 0 <= i < |published| && published[i] in files =>
      Recorded(published[i], m.size(files[published[i]]), m.sha256(files[published[i]])));
    RecordsPublished(m, files, files, published, assets);
    inventory := Inventory(job.version, "v" + job.version, job.channel, code, job.commit, items, assets);
    var kept := Kept(job, items, files)[INVENTORY := Json(inventory)];
    after := kept[CHECKSUMS := Bytes(ChecksumText(m, kept, Sorted(kept.Keys - {CHECKSUMS})))];
  }

  /** What an available built entry of a player says about the directory. */
  lemma BuiltEntry(m: Meter, job: Job, code: nat, files: Directory, c: Component, item: Item)
    requires Lists(m, job, code, files, c, item)
    ensures item.entry.Available? && item.entry.origin.Built? && item.platform.Some? ==>
      && CarriesFiles(item.entry)
      && (forall name | name in Names(c, job.version) :: name in files)
      && (set a | a in item.entry.payload.assets :: a.name) == Elements(Names(c, job.version))
      && FirstVerified(job.report.components, item.platform.value).Some?
      && !Rejected(job.report, item.platform.value)
    ensures item.platform.None? ==> Names(c, job.version) == [] && !CarriesFiles(item.entry)
    ensures item.entry.Available? && item.entry.origin.Inherited? ==>
      && forall name | name in Names(c, job.version) :: name !in files
  {
    match c.kind
    case ServerImage =>
    case Player(family, architecture, specs) =>
      if item.entry.Available? && item.entry.origin.Built? {
        var names, assets := Names(c, job.version), item.entry.payload.assets;
        assert assets == Measure(m, files, specs, job.version);
        forall name | name in names ensures name in set a | a in assets :: a.name {
          var i :| 0 <= i < |names| && names[i] == name;
          assert assets[i] in assets && assets[i].name == name;
        }
      }
  }

  lemma OwnFilesAreKept(m: Meter, job: Job, code: nat, files: Directory, items: seq<Item>)
    requires WellFormed(job.contract, job.version) && ListsAll(m, job, code, files, items)
    ensures forall name | name in OwnNames(items) ::
      name in files && !Dropped(job, items, name) && CleanName(name) && name != INVENTORY && name != CHECKSUMS
  {
    hide Status, CarriesFiles;
    var components := job.contract.components;
    forall name | name in OwnNames(items)
      ensures name in files && !Dropped(job, items, name) && CleanName(name) && name != INVENTORY && name != CHECKSUMS
    {
      var i := Carrier(m, job, code, files, items, name);
      assert components[i] in components;
      forall j | 0 <= j < |items| && name in Names(components[j], job.version) ensures j == i {
        assert components[j] in components;
        assert components[i] == components[j];
      }
    }
  }

  lemma Carrier(m: Meter, job: Job, code: nat, files: Directory, items: seq<Item>, name: string) returns (i: nat)
    requires ListsAll(m, job, code, files, items) && name in OwnNames(items)
    ensures i < |items| && CarriesFiles(items[i].entry)
    ensures name in Names(job.contract.components[i], job.version) && name in files
    ensures !items[i].entry.Unavailable?
  {
    hide Status;
    var item, asset :| item in items && CarriesFiles(item.entry) && asset in item.entry.payload.assets
      && asset.name == name;
    i :| 0 <= i < |items| && items[i] == item;
    var c := job.contract.components[i];
    assert Lists(m, job, code, files, c, item);
    BuiltEntry(m, job, code, files, c, item);
    assert name in (set a | a in item.entry.payload.assets :: a.name);
    assert item.platform.Some? && item.entry.Available? && item.entry.origin.Built?;
    assert name in Elements(Names(c, job.version));
  }

  // ---- what build writes, verify accepts ------------------------------------------------

  /** What makes a planned inheritance trustworthy in a release of this tag, code
      and channel. */
  predicate TrustedDecision(d: Decision, player: bool, tag: string, code: nat, channel: Channel)
    requires d.ToInherit?
  {
    && d.source.tag != "" && d.source.commit != "" && d.source.inventorySha256 != "" && d.source.url != ""
    && d.source.tag != tag && StartsWith(d.inputs.digest, "sha256:") && d.versionCode <= code
    && (d.channel == Stable || channel == Beta)
    && match d.payload
       case Assets(assets) => assets != [] && forall a | a in assets :: a.sha256 != "" && a.name != ""
       case Image(_, _, digest) => !player && StartsWith(digest, "sha256:")
  }

  ghost predicate TrustedPlan(job: Job, code: nat) {
    forall c | c in job.contract.components && Carried(job.plan, c.id) ::
      TrustedDecision(job.plan.decisions[c.id], c.kind.Player?, "v" + job.version, code, job.channel)
  }

  lemma KeptIsOwn(m: Meter, job: Job, code: nat, before: Directory, items: seq<Item>)
    requires WellFormed(job.contract, job.version) && Consistent(job, before)
    requires ListsAll(m, job, code, before, items)
    ensures Kept(job, items, before).Keys + {INVENTORY, CHECKSUMS} == OwnNames(items) + {INVENTORY, CHECKSUMS}
  {
    hide Status, ParseTag, WellFormed, Consistent, CleanName, CarriesFiles, Names;
    OwnFilesAreKept(m, job, code, before, items);
    forall name | name in before && !Dropped(job, items, name) && name != INVENTORY && name != CHECKSUMS
      ensures name in OwnNames(items)
    {
      KeptIsListed(m, job, code, before, items, name);
    }
  }

  lemma KeptIsListed(m: Meter, job: Job, code: nat, before: Directory, items: seq<Item>, name: string)
    requires WellFormed(job.contract, job.version) && Consistent(job, before)
    requires ListsAll(m, job, code, before, items)
    requires name in before && !Dropped(job, items, name) && name != INVENTORY && name != CHECKSUMS
    ensures name in OwnNames(items)
  {
    hide Status, ParseTag, WellFormed;
    var components := job.contract.components;
    var c :| c in components && name in Names(c, job.version);
    var i :| 0 <= i < |components| && components[i] == c;
    assert Lists(m, job, code, before, c, items[i]);
    BuiltEntry(m, job, code, before, c, items[i]);
    assert items[i].entry.Available?;
    assert items[i].entry.origin.Built? && items[i].platform.Some?;
    assert name in Elements(Names(c, job.version));
    var asset :| asset in items[i].entry.payload.assets && asset.name == name;
    assert items[i] in items;
  }

  lemma {:induction false} ByNameKeys(assets: seq<Recorded>)
    ensures ByName(assets).Keys == set a | a in assets :: a.name
    ensures forall name | name in ByName(assets) :: ByName(assets)[name] in assets && ByName(assets)[name].name == name
  {
    if assets != [] {
      var front, last := assets[..|assets| - 1], assets[|assets| - 1];
      assert assets == front + [last];
      ByNameKeys(front);
    }
  }

  lemma FilesVerify(m: Meter, job: Job, before: Directory, inventory: Inventory, after: Directory)
    requires HexDigests(m) && WellFormed(job.contract, job.version)
    requires Assembled(m, job, before, inventory, after)
    ensures after[INVENTORY] == Json(inventory)
    ensures after.Keys == ExpectedFiles(inventory)
    ensures forall asset | asset in ByName(inventory.assets).Values :: Matches(m, after, asset)
    ensures ChecksumsAgree(m, after, ExpectedFiles(inventory))
  {
    hide Status, ParseTag, Names, Consistent, Lists, ChecksumText, Sums, SplitLines, HexDigest, Records, ChecksumsAgree,
      Matches, WellFormed, OwnNames, Dropped;
    var items := inventory.components;
    KeptIsOwn(m, job, inventory.versionCode, before, items);
    OwnFilesAreKept(m, job, inventory.versionCode, before, items);
    RecordedNames(m, before, OwnNames(items), inventory.assets);
    var kept := Kept(job, items, before)[INVENTORY := Json(inventory)];
    assert after.Keys == kept.Keys + {CHECKSUMS};
    assert kept.Keys - {CHECKSUMS} == ExpectedFiles(inventory) - {CHECKSUMS};
    forall name | name in kept.Keys - {CHECKSUMS} ensures CleanName(name) {
      assert name == INVENTORY || name in OwnNames(items);
    }
    RecordedMatch(m, before, OwnNames(items), inventory.assets, after);
    WrittenSumsAgree(m, kept);
  }

  lemma RecordedNames(m: Meter, files: Directory, names: set<string>, assets: seq<Recorded>)
    requires Records(m, files, names, assets)
    ensures ByName(assets).Keys == names
  {
    ByNameKeys(assets);
  }

  lemma RecordedMatch(m: Meter, before: Directory, names: set<string>, assets: seq<Recorded>, after: Directory)
    requires Records(m, before, names, assets)
    requires forall name | name in names :: name in after && name in before && after[name] == before[name]
    ensures forall asset | asset in ByName(assets).Values :: Matches(m, after, asset)
  {
    ByNameKeys(assets);
    forall asset | asset in ByName(assets).Values ensures Matches(m, after, asset) {
      assert asset in assets && asset.name in names;
    }
  }

  lemma WrittenSumsAgree(m: Meter, files: Directory)
    requires HexDigests(m) && forall name | name in files.Keys - {CHECKSUMS} :: CleanName(name)
    ensures ChecksumsAgree(m,
      files[CHECKSUMS := Bytes(ChecksumText(m, files, Sorted(files.Keys - {CHECKSUMS})))], files.Keys + {CHECKSUMS})
  {
    var names := Sorted(files.Keys - {CHECKSUMS});
    forall name | name in names ensures name in files && CleanName(name) {
      assert name in Elements(names);
    }
    hide HexDigest, CleanName, ChecksumText, LinesOf, Sums;
    TextSplits(m, files, names);
    ChecksumsRoundTrip(m, files, names);
  }

  lemma {:induction false} FindById(items: seq<Item>, i: nat)
    requires i < |items| && forall j | 0 <= j < |items| && items[j].id == items[i].id :: j == i
    ensures FindItem(items, items[i].id) == Some(items[i])
  {
    if i != 0 {
      assert items[0].id != items[i].id;
      FindById(items[1..], i - 1);
    }
  }

  lemma EntriesVerify(m: Meter, job: Job, before: Directory, inventory: Inventory, after: Directory)
    requires WellFormed(job.contract, job.version) && Assembled(m, job, before, inventory, after)
    requires TrustedPlan(job, inventory.versionCode)
    ensures forall item | item in inventory.components :: Sound(item, inventory, job.report)
    ensures forall c | c in job.contract.components && job.channel in c.required :: Present(inventory, c.id)
    ensures forall p | p in job.report.problems && p.platform.family != "" :: Tolerated(p, inventory)
  {
    hide ParseTag, Kept, ChecksumText, Records, Consistent, Names;
    var items, components := inventory.components, job.contract.components;
    forall i | 0 <= i < |items| ensures Sound(items[i], inventory, job.report) {
      assert components[i] in components;
      SoundItem(m, job, before, inventory, components[i], items[i]);
    }
    forall c | c in components && job.channel in c.required ensures Present(inventory, c.id) {
      var i :| 0 <= i < |components| && components[i] == c;
      assert forall j | 0 <= j < |items| :: Lists(m, job, inventory.versionCode, before, components[j], items[j]);
      FindById(items, i);
      assert items[i] in items;
    }
    forall p, item | p in job.report.problems && item in items && item.entry.Available? && item.entry.origin.Built?
      ensures item.platform != Some(p.platform)
    {
      var i :| 0 <= i < |items| && items[i] == item;
      BuiltEntry(m, job, inventory.versionCode, before, components[i], item);
    }
  }

  lemma SoundItem(m: Meter, job: Job, before: Directory, inventory: Inventory, c: Component, item: Item)
    requires c in job.contract.components && TrustedPlan(job, inventory.versionCode)
    requires inventory.tag == "v" + job.version && inventory.channel == job.channel
    requires Lists(m, job, inventory.versionCode, before, c, item)
    ensures Sound(item, inventory, job.report)
  {
    hide Names, Measure;
    BuiltEntry(m, job, inventory.versionCode, before, c, item);
    if item.entry.Available? && item.entry.origin.Inherited? {
      assert Carried(job.plan, c.id) && item.entry == InheritedEntry(job.plan.decisions[c.id]);
      assert TrustedDecision(job.plan.decisions[c.id], c.kind.Player?, "v" + job.version, inventory.versionCode,
        job.channel);
    }
  }

  /** Whatever `build` assembles from a trustworthy plan, `verify` accepts with the
      same report, exactly when every problem of the report names a platform. */
  lemma BuildIsVerified(m: Meter, job: Job, before: Directory, inventory: Inventory, after: Directory)
    requires HexDigests(m) && WellFormed(job.contract, job.version)
    requires TrustedPlan(job, inventory.versionCode)
    requires Assembled(m, job, before, inventory, after)
    ensures Accepts(m, job.contract, job.version, job.channel, after, job.report)
       <==> forall p | p in job.report.problems :: p.platform.family != ""
  {
    hide ParseTag, Kept, ChecksumText, Records, ListsAll, Matches, ChecksumsAgree, Sound, Present, Tolerated;
    FilesVerify(m, job, before, inventory, after);
    EntriesVerify(m, job, before, inventory, after);
    forall p | p in job.report.problems && Tolerated(p, inventory) ensures p.platform.family != "" {
      NamesAPlatform(p, inventory);
    }
  }

  lemma NamesAPlatform(p: Problem, inventory: Inventory)
    requires Tolerated(p, inventory)
    ensures p.platform.family != ""
  {
  }

  // ---- resume ------------------------------------------------------------------------------

  /** A draft holds a component: it verifies, nothing rejects it, no file is missing. */
  predicate Complete(c: Component, version: string, draft: Directory, report: Report) {
    c.kind.Player? && PlatformOf(c).Some?
    && FirstVerified(report.components, PlatformOf(c).value).Some? && !Rejected(report, PlatformOf(c).value)
    && forall name | name in Names(c, version) :: name in draft
  }

  /** A draft holds a player exactly when a release built from the draft's files, with
      the draft's report, would list it as built. */
  lemma CompleteIsBuilt(m: Meter, job: Job, code: nat, draft: Directory, c: Component)
    requires c.kind.Player? && !Carried(job.plan, c.id)
    ensures Complete(c, job.version, draft, job.report) <==>
      Status(m, job, code, draft, c).Ok? && Status(m, job, code, draft, c).value.Available?
  {
    hide Measure, Rejected;
  }

  /** Splits the players into those a draft holds and those to build, and copies
      out the files of the former and of nothing else. */
  method Resume(contract: Contract, version: string, draft: Directory, report: Report)
    returns (done: seq<string>, pending: seq<string>, out: Directory)
    ensures Elements(done) == set c | c in contract.components && Complete(c, version, draft, report) :: c.id
    ensures Elements(pending)
         == set c | c in contract.components && c.kind.Player? && !Complete(c, version, draft, report) :: c.id
    ensures out.Keys
         == set c, name | c in contract.components && Complete(c, version, draft, report)
           && name in Names(c, version) :: name
    ensures forall name | name in out :: name in draft && out[name] == draft[name]
  {
    hide Complete, Names;
    done, pending, out := [], [], map[];
    var components := contract.components;
    for i := 0 to |components|
      invariant Elements(done) == set c | c in components[..i] && Complete(c, version, draft, report) :: c.id
      invariant Elements(pending)
             == set c | c in components[..i] && c.kind.Player? && !Complete(c, version, draft, report) :: c.id
      invariant out.Keys
        == set c, name | c in components[..i] && Complete(c, version, draft, report) && name in Names(c, version) ::
          name
      invariant forall name | name in out :: name in draft && out[name] == draft[name]
    {
      var c := components[i];
      assert components[..i + 1] == components[..i] + [c];
      if c.kind.Player? {
        if Complete(c, version, draft, report) {
          var names := Names(c, version);
          CompleteHasFiles(c, version, draft, report);
          out := out + map name | name in names :: draft[name];
          ElementsAppend(done, c.id);
          done := done + [c.id];
        } else {
          ElementsAppend(pending, c.id);
          pending := pending + [c.id];
        }
      } else {
        CompleteIsPlayer(c, version, draft, report);
      }
    }
    assert components[..|components|] == components;
  }

  lemma CompleteHasFiles(c: Component, version: string, draft: Directory, report: Report)
    requires Complete(c, version, draft, report)
    ensures forall name | name in Names(c, version) :: name in draft
  {
  }

  lemma CompleteIsPlayer(c: Component, version: string, draft: Directory, report: Report)
    requires !c.kind.Player?
    ensures !Complete(c, version, draft, report)
  {
  }

  /** A directory that holds only files of components the plan does not carry, and
      a Server digest only when the plan does not carry the Server. */
  ghost predicate OnlyBuilt(job: Job, files: Directory) {
    && (forall name | name in files && name != INVENTORY && name != CHECKSUMS ::
          exists c :: c in job.contract.components && !Carried(job.plan, c.id) && name in Names(c, job.version))
    && (forall c | c in job.contract.components && c.kind.ServerImage? && job.serverDigest != "" ::
      !Carried(job.plan, c.id))
  }

  lemma AssetName(contract: Contract, version: string, c: Component, name: string)
    requires WellFormed(contract, version) && c in contract.components && name in Names(c, version)
    ensures CleanName(name) && name != INVENTORY && name != CHECKSUMS
  {
    hide Names;
  }

  /** Then no component is both carried forward and built. */
  lemma OnlyBuiltNeverConflicts(m: Meter, job: Job, code: nat, files: Directory, c: Component)
    requires WellFormed(job.contract, job.version) && OnlyBuilt(job, files) && c in job.contract.components
    ensures Status(m, job, code, files, c).Ok?
  {
    hide Measure, Rejected;
    if c.kind.Player? && Carried(job.plan, c.id) {
      forall name | name in Names(c, job.version) ensures name !in files {
        AssetName(job.contract, job.version, c, name);
      }
    }
  }
}
