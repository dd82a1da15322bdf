/** `verify` of scripts/release/release_assemble.py: every check it makes of a
    directory read back, and exactly when it accepts one. */
module Recheck {
  import opened Text
  import opened Versions
  import opened Assemble
  import Inputs

  // ---- what a re-checked directory satisfies ------------------------------------------

  predicate StartsWith(s: string, prefix: string) { prefix <= s }

  /** An inherited entry is trustworthy as far as its own shape shows. */
  predicate Trusted(item: Item, inventory: Inventory)
    requires item.entry.Available? && item.entry.origin.Inherited?
  {
    var e, source := item.entry, item.entry.origin.source;
    && source.tag != "" && source.commit != "" && source.inventorySha256 != "" && source.url != ""
    && source.tag != inventory.tag
    && e.inputs.Some? && StartsWith(e.inputs.value.digest, "sha256:")
    && e.versionCode.Some? && e.versionCode.value <= inventory.versionCode
    && !(e.channel == Some(Beta) && inventory.channel == Stable)
    && match e.payload
       case Assets(assets) => assets != [] && forall a | a in assets :: a.sha256 != "" && a.name != ""
       case Image(_, _, digest) => item.platform.None? && StartsWith(digest, "sha256:")
  }

  /** The inventory's assets by name; the last of a repeated name wins. */
  function ByName(assets: seq<Recorded>): map<string, Recorded> {
    if assets == [] then map[]
    else
      var last := assets[|assets| - 1];
      ByName(assets[..|assets| - 1])[last.name := last]
  }

  function ExpectedFiles(inventory: Inventory): set<string> {
    ByName(inventory.assets).Keys + {INVENTORY, CHECKSUMS}
  }

  predicate Matches(m: Meter, files: Directory, asset: Recorded) {
    asset.name in files ==> m.size(files[asset.name]) == asset.size && m.sha256(files[asset.name]) == asset.sha256
  }

  /** The digest a checksum file records for a name is the file's. */
  predicate Summed(m: Meter, files: Directory, sums: map<string, string>, name: string) {
    name in files ==> name in sums && sums[name] == m.sha256(files[name])
  }

  ghost predicate ChecksumsAgree(m: Meter, files: Directory, expected: set<string>) {
    CHECKSUMS in files ==>
      && files[CHECKSUMS].Bytes?
      && var sums := Sums(SplitLines(files[CHECKSUMS].data));
         && sums.Some? && sums.value.Keys <= expected
         && forall name | name in expected - {CHECKSUMS} :: Summed(m, files, sums.value, name)
  }

  predicate Sound(item: Item, inventory: Inventory, report: Report) {
    item.entry.Available? ==>
      if item.entry.origin.Inherited? then Trusted(item, inventory)
      else item.platform.Some? ==> FirstVerified(report.components, item.platform.value).Some?
  }

  function FindItem(items: seq<Item>, id: string): Option<Item> {
    if items == [] then None else if items[0].id == id then Some(items[0]) else FindItem(items[1..], id)
  }

  predicate Present(inventory: Inventory, id: string) {
    var item := FindItem(inventory.components, id);
    item.Some? && item.value.entry.Available?
  }

  /** A rejected build is tolerated only for a platform this release does not carry. */
  predicate Tolerated(problem: Problem, inventory: Inventory) {
    && problem.platform.family != ""
    && forall item | item in inventory.components && item.entry.Available? && item.entry.origin.Built? ::
         item.platform != Some(problem.platform)
  }

  ghost predicate Accepts(m: Meter, contract: Contract, version: string, channel: Channel, files: Directory,
                          report: Report) {
    && INVENTORY in files && files[INVENTORY].Json?
    && var inventory := files[INVENTORY].inventory;
       && inventory.version == version && inventory.channel == channel
       && report.version == version && report.channel == channel
       && files.Keys == ExpectedFiles(inventory)
       && (forall asset | asset in ByName(inventory.assets).Values :: Matches(m, files, asset))
       && ChecksumsAgree(m, files, ExpectedFiles(inventory))
       && (forall item | item in inventory.components :: Sound(item, inventory, report))
       && (forall c | c in contract.components && channel in c.required :: Present(inventory, c.id))
       && (forall p | p in report.problems :: Tolerated(p, inventory))
  }

  // ---- verify ---------------------------------------------------------------------------

  datatype Trouble =
    | NoInventory | UnreadableInventory | OtherVersion | OtherReport
    | Unexpected(name: string) | Missing(name: string) | Differs(name: string)
    | BadChecksums | SumDiffers(name: string) | SumExtra(name: string)
    | Unsound(id: string) | NotAvailable(id: string) | Reported(problem: Problem)

  /** Accumulates every failure, and accepts only when there is none. */
  method Verify(m: Meter, contract: Contract, version: string, channel: Channel, files: Directory, report: Report)
    returns (r: Result<Inventory, seq<Trouble>>)
    ensures r.Ok? <==> Accepts(m, contract, version, channel, files, report)
    ensures r.Ok? ==> files[INVENTORY] == Json(r.value)
    ensures r.Err? ==> r.error != []
  {
    if INVENTORY !in files {
      return Err([NoInventory]);
    }
    if !files[INVENTORY].Json? {
      return Err([UnreadableInventory]);
    }
    var inventory := files[INVENTORY].inventory;
    var problems := [];
    if inventory.version != version || inventory.channel != channel {
      problems := problems + [OtherVersion];
    }
    if report.version != version || report.channel != channel {
      problems := problems + [OtherReport];
    }
    var listing := VerifyFiles(m, files, inventory);
    var entries := VerifyEntries(contract, channel, inventory, report);
    problems := problems + listing + entries;
    r := if problems == [] then Ok(inventory) else Err(problems);
  }

  method VerifyFiles(m: Meter, files: Directory, inventory: Inventory) returns (problems: seq<Trouble>)
    ensures problems == [] <==>
      && files.Keys == ExpectedFiles(inventory)
      && (forall asset | asset in ByName(inventory.assets).Values :: Matches(m, files, asset))
      && ChecksumsAgree(m, files, ExpectedFiles(inventory))
  {
    hide ChecksumsAgree, Matches;
    var expectedFiles := ExpectedFiles(inventory);
    var extra := SortNames(files.Keys - expectedFiles);
    var missing := SortNames(expectedFiles - files.Keys);
    EmptyElements(extra);
    EmptyElements(missing);
    var listed := seq(|extra|, i requires 0 <= i < |extra| => Unexpected(extra[i]))
                + seq(|missing|, i requires 0 <= i < |missing| => Missing(missing[i]));
    assert listed == [] <==> files.Keys == expectedFiles;
    var contents := VerifyContents(m, files, ByName(inventory.assets));
    var sums := VerifyChecksums(m, files, expectedFiles);
    problems := listed + contents + sums;
  }

  method VerifyContents(m: Meter, files: Directory, expected: map<string, Recorded>) returns (problems: seq<Trouble>)
    ensures problems == [] <==> forall asset | asset in expected.Values :: Matches(m, files, asset)
  {
    var names := SortNames(expected.Keys);
    problems := [];
    for i := 0 to |names|
      invariant problems == [] <==>
        forall j | 0 <= j < i :: names[j] in expected && Matches(m, files, expected[names[j]])
    {
      assert names[i] in Elements(names);
      if !Matches(m, files, expected[names[i]]) {
        problems := problems + [Differs(names[i])];
      }
    }
    MatchesByName(m, files, expected, names);
  }

  lemma MatchesByName(m: Meter, files: Directory, expected: map<string, Recorded>, names: seq<string>)
    requires Elements(names) == expected.Keys
    ensures (forall j | 0 <= j < |names| :: names[j] in expected && Matches(m, files, expected[names[j]]))
       <==> (forall asset | asset in expected.Values :: Matches(m, files, asset))
  {
    forall j | 0 <= j < |names| ensures names[j] in expected {
      assert names[j] in Elements(names);
    }
    if forall j | 0 <= j < |names| :: Matches(m, files, expected[names[j]]) {
      forall asset | asset in expected.Values ensures Matches(m, files, asset) {
        var name :| name in expected && expected[name] == asset;
        assert name in Elements(names);
      }
    }
  }

  method VerifyChecksums(m: Meter, files: Directory, expected: set<string>) returns (problems: seq<Trouble>)
    ensures problems == [] <==> ChecksumsAgree(m, files, expected)
  {
    hide Sums, SplitLines, ReadsLast, ParseLine;
    problems := [];
    if CHECKSUMS !in files {
      return;
    }
    if !files[CHECKSUMS].Bytes? {
      return [BadChecksums];
    }
    var read := ParseChecksums(files[CHECKSUMS].data);
    if read.None? {
      return [BadChecksums];
    }
    var sums := read.value;
    var names := SortNames(expected - {CHECKSUMS});
    for i := 0 to |names|
      invariant problems == [] <==> forall j | 0 <= j < i :: Summed(m, files, sums, names[j])
    {
      if !Summed(m, files, sums, names[i]) {
        problems := problems + [SumDiffers(names[i])];
      }
    }
    assert problems == [] <==> forall name | name in Elements(names) :: Summed(m, files, sums, name);
    assert Elements(names) == expected - {CHECKSUMS};
    var extra := SortNames(sums.Keys - expected);
    EmptyElements(extra);
    assert forall x | x in sums.Keys && x !in expected :: x in Elements(extra);
    assert extra == [] <==> sums.Keys <= expected;
    problems := problems + seq(|extra|, i requires 0 <= i < |extra| => SumExtra(extra[i]));
  }

  method VerifyEntries(contract: Contract, channel: Channel, inventory: Inventory,
                       report: Report) returns (problems: seq<Trouble>)
    ensures problems == [] <==>
      && (forall item | item in inventory.components :: Sound(item, inventory, report))
      && (forall c | c in contract.components && channel in c.required :: Present(inventory, c.id))
      && (forall p | p in report.problems :: Tolerated(p, inventory))
  {
    problems := [];
    for i := 0 to |inventory.components|
      invariant problems == [] <==> forall j | 0 <= j < i :: Sound(inventory.components[j], inventory, report)
    {
      if !Sound(inventory.components[i], inventory, report) {
        problems := problems + [Unsound(inventory.components[i].id)];
      }
    }
    ghost var sound := problems == [];
    for i := 0 to |contract.components|
      invariant problems == [] <==> sound && forall j | 0 <= j < i ::
        channel in contract.components[j].required ==> Present(inventory, contract.components[j].id)
    {
      var c := contract.components[i];
      if channel in c.required && !Present(inventory, c.id) {
        problems := problems + [NotAvailable(c.id)];
      }
    }
    ghost var complete := problems == [];
    for i := 0 to |report.problems|
      invariant problems == [] <==> complete && forall j | 0 <= j < i :: Tolerated(report.problems[j], inventory)
    {
      if !Tolerated(report.problems[i], inventory) {
        problems := problems + [Reported(report.problems[i])];
      }
    }
  }

  // ---- what acceptance guarantees ------------------------------------------------------------

  /** The last record of a name says what its file measures. */
  ghost predicate AsListed(m: Meter, files: Directory, assets: seq<Recorded>, name: string) {
    && name in files
    && exists k | 0 <= k < |assets| ::
         && assets[k].name == name && assets[k].size == m.size(files[name]) && assets[k].sha256 == m.sha256(files[name])
         && forall j | k < j < |assets| :: assets[j].name != name
  }

  lemma {:induction false} NameIsLast(assets: seq<Recorded>, name: string)
    ensures name in ByName(assets) <==> exists k | 0 <= k < |assets| :: assets[k].name == name
    ensures name in ByName(assets) ==> exists k | 0 <= k < |assets| ::
      && assets[k] == ByName(assets)[name] && assets[k].name == name
      && forall j | k < j < |assets| :: assets[j].name != name
  {
    if assets != [] {
      var front, n := assets[..|assets| - 1], |assets| - 1;
      NameIsLast(front, name);
      if assets[n].name == name {
        assert ByName(assets)[name] == assets[n];
      } else if name in ByName(front) {
        var k :| 0 <= k < n && front[k] == ByName(front)[name] && front[k].name == name
          && forall j | k < j < n :: front[j].name != name;
        assert assets[k] == ByName(assets)[name];
        forall j | k < j < |assets| ensures assets[j].name != name {
          if j < n { assert assets[j] == front[j]; }
        }
      }
      if exists k | 0 <= k < |assets| :: assets[k].name == name {
        var k :| 0 <= k < |assets| && assets[k].name == name;
        if k < n { assert front[k].name == name; }
      }
    }
  }

  /** An accepted directory holds the files its inventory records, each as recorded,
      with the inventory and the checksums, and nothing else. */
  lemma AcceptedFiles(m: Meter, contract: Contract, version: string, channel: Channel, files: Directory,
                      report: Report, inventory: Inventory)
    requires Accepts(m, contract, version, channel, files, report) && files[INVENTORY] == Json(inventory)
    requires forall a | a in inventory.assets :: a.name != INVENTORY && a.name != CHECKSUMS
    ensures inventory.version == report.version == version && inventory.channel == report.channel == channel
    ensures CHECKSUMS in files
    ensures forall name | name != INVENTORY && name != CHECKSUMS ::
      name in files <==> exists k | 0 <= k < |inventory.assets| :: inventory.assets[k].name == name
    ensures forall name | name in files && name != INVENTORY && name != CHECKSUMS ::
      AsListed(m, files, inventory.assets, name)
  {
    hide Sound, Present, Tolerated, ChecksumsAgree, ByName;
    forall name | name != INVENTORY && name != CHECKSUMS
      ensures name in files <==> exists k | 0 <= k < |inventory.assets| :: inventory.assets[k].name == name
      ensures name in files ==> AsListed(m, files, inventory.assets, name)
    {
      NameIsLast(inventory.assets, name);
      if name in files {
        assert name in ByName(inventory.assets);
        var k :| 0 <= k < |inventory.assets| && inventory.assets[k] == ByName(inventory.assets)[name]
          && inventory.assets[k].name == name && forall j | k < j < |inventory.assets| ::
            inventory.assets[j].name != name;
        assert ByName(inventory.assets)[name] in ByName(inventory.assets).Values;
        assert Matches(m, files, inventory.assets[k]);
      }
    }
  }

  /** Its checksums, read back, are those of every other file, and of nothing else. */
  lemma AcceptedChecksums(m: Meter, contract: Contract, version: string, channel: Channel, files: Directory,
                          report: Report)
    requires Accepts(m, contract, version, channel, files, report)
    ensures CHECKSUMS in files && files[CHECKSUMS].Bytes?
    ensures var sums := Sums(SplitLines(files[CHECKSUMS].data));
      && sums.Some? && sums.value.Keys - {CHECKSUMS} == files.Keys - {CHECKSUMS}
      && forall name | name in files && name != CHECKSUMS ::
           name in sums.value && sums.value[name] == m.sha256(files[name])
  {
    hide Sums, SplitLines, Present, Tolerated, ByName, Matches;
    assert forall name | name in files && name != CHECKSUMS ::
      Summed(m, files, Sums(SplitLines(files[CHECKSUMS].data)).value, name);
  }

  /** So a file cannot be changed, added or taken away behind its inventory: two
      accepted directories with one inventory hold the same files. */
  lemma InventoryDecides(m: Meter, contract: Contract, version: string, channel: Channel, files: Directory,
                         other: Directory, report: Report)
    requires Accepts(m, contract, version, channel, files, report)
    requires Accepts(m, contract, version, channel, other, report) && files[INVENTORY] == other[INVENTORY]
    ensures files.Keys == other.Keys
    ensures forall name | name in files && name != CHECKSUMS ::
      m.size(files[name]) == m.size(other[name]) && m.sha256(files[name]) == m.sha256(other[name])
  {
    hide Sound, Present, Tolerated, ChecksumsAgree;
    var expected := ByName(files[INVENTORY].inventory.assets);
    forall name | name in files && name != CHECKSUMS
      ensures m.size(files[name]) == m.size(other[name]) && m.sha256(files[name]) == m.sha256(other[name])
    {
      if name in expected {
        NamedAs(files[INVENTORY].inventory.assets, name);
        assert expected[name] in expected.Values && Matches(m, files, expected[name]);
        assert Matches(m, other, expected[name]);
      }
    }
  }

  lemma {:induction false} NamedAs(assets: seq<Recorded>, name: string)
    requires name in ByName(assets)
    ensures ByName(assets)[name].name == name
  {
    hide ByName;
    NameIsLast(assets, name);
  }

  /** What a carried entry of an accepted release says of where it is from. */
  ghost predicate Traceable(e: Entry, inventory: Inventory)
    requires e.Available? && e.origin.Inherited?
  {
    var source := e.origin.source;
    && source.tag != "" && source.tag != inventory.tag
    && source.commit != "" && source.inventorySha256 != "" && source.url != ""
    && e.inputs.Some? && "sha256:" <= e.inputs.value.digest
  }

  /** And of what it is: no newer than the release, of a channel it may hold, with
      files or an image that can be checked. */
  ghost predicate Admissible(item: Item, inventory: Inventory)
    requires item.entry.Available?
  {
    var e := item.entry;
    && e.versionCode.Some? && e.versionCode.value <= inventory.versionCode
    && (inventory.channel == Stable ==> e.channel != Some(Beta))
    && (e.payload.Assets? ==>
          e.payload.assets != [] && forall a | a in e.payload.assets :: a.sha256 != "" && a.name != "")
    && (e.payload.Image? ==> item.platform.None? && "sha256:" <= e.payload.digest)
  }

  /** Every entry of an accepted release can be relied on: one that is carried says
      where it is from and may be in this release, a player that was built is one the
      importer verified, what the channel requires is there, and no problem of the
      importer is about anything built here. */
  lemma AcceptedEntries(m: Meter, contract: Contract, version: string, channel: Channel, files: Directory,
                        report: Report, inventory: Inventory)
    requires Accepts(m, contract, version, channel, files, report) && files[INVENTORY] == Json(inventory)
    ensures forall item | item in inventory.components && item.entry.Available? && item.entry.origin.Inherited? ::
      Traceable(item.entry, inventory) && Admissible(item, inventory)
    ensures forall item | item in inventory.components && item.entry.Available? && item.entry.origin.Built?
      && item.platform.Some? :: exists v :: v in report.components && v.platform == item.platform.value
    ensures forall c | c in contract.components && channel in c.required ::
      exists item :: item in inventory.components && item.id == c.id && item.entry.Available?
    ensures forall p | p in report.problems :: p.platform.family != ""
    ensures forall p, item | p in report.problems && item in inventory.components && item.entry.Available?
      && item.entry.origin.Built? :: item.platform != Some(p.platform)
  {
    hide ChecksumsAgree, Matches, ByName;
    forall c | c in contract.components && channel in c.required
      ensures exists item :: item in inventory.components && item.id == c.id && item.entry.Available?
    {
      assert Present(inventory, c.id);
      FoundIn(inventory.components, c.id);
    }
  }

  lemma {:induction false} FoundIn(items: seq<Item>, id: string)
    requires FindItem(items, id).Some?
    ensures FindItem(items, id).value in items && FindItem(items, id).value.id == id
  {
    if items[0].id != id {
      FoundIn(items[1..], id);
    }
  }
}
