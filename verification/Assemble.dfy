/** The assets of one coordinated release (scripts/release/release_assemble.py):
    what `build` writes into a directory and what `verify` accepts of it. */
module Assemble {
  import opened Text
  import opened Versions
  import Inputs

  const INVENTORY := "tilecast-release.json"
  const CHECKSUMS := "SHA256SUMS"

  // ---- the release contract ------------------------------------------------------

  datatype AssetSpec = AssetSpec(name: string, role: string)

  datatype Kind = ServerImage | Player(family: string, architecture: string, assets: seq<AssetSpec>)

  /** `profile` names the input rules the component is built from. */
  datatype Component = Component(id: string, kind: Kind, required: set<Channel>, profile: string)

  datatype Contract = Contract(serverImage: string, releases: string, components: seq<Component>)

  // ---- inventories and plans -------------------------------------------------------

  datatype Asset = Asset(name: string, role: string, size: nat, sha256: string)

  datatype Payload = Assets(assets: seq<Asset>) | Image(image: string, tag: string, digest: string)

  /** The release that supplied an inherited component. */
  datatype Source = Source(tag: string, commit: string, inventorySha256: string, url: string)

  datatype Origin = Built | Inherited(source: Source)

  datatype Entry =
    | Available(origin: Origin, versionName: string, versionCode: Option<int>, channel: Option<Channel>,
                inputs: Option<Inputs.Fingerprint>, payload: Payload)
    | Unavailable

  datatype Platform = Platform(family: string, architecture: string)

  datatype Item = Item(id: string, required: bool, platform: Option<Platform>, entry: Entry)

  datatype Recorded = Recorded(name: string, size: nat, sha256: string)

  datatype Inventory = Inventory(version: string, tag: string, channel: Channel, versionCode: nat, commit: string,
                                 components: seq<Item>, assets: seq<Recorded>)

  datatype Decision =
    | ToBuild
    | ToInherit(versionName: string, versionCode: int, channel: Channel, source: Source,
                inputs: Inputs.Fingerprint, payload: Payload)

  datatype ReusePlan = ReusePlan(decisions: map<string, Decision>, inputs: map<string, Inputs.Fingerprint>)

  // ---- files and the verifier's report ----------------------------------------------

  /** A file: bytes, or the inventory document (writing and reading it is lossless). */
  datatype Content = Bytes(data: string) | Json(inventory: Inventory)

  type Directory = map<string, Content>

  datatype Meter = Meter(size: Content -> nat, sha256: Content -> string)

  predicate HexDigest(digest: string) {
    |digest| == 64 && forall c | c in digest :: '0' <= c <= '9' || 'a' <= c <= 'f'
  }

  ghost predicate HexDigests(m: Meter) { forall c :: HexDigest(m.sha256(c)) }

  datatype Verified = Verified(platform: Platform, versionName: string, versionCode: int, channel: Channel)

  datatype Problem = Problem(platform: Platform, message: string)

  datatype Report = Report(version: string, channel: Channel, components: seq<Verified>, problems: seq<Problem>)

  function FirstVerified(components: seq<Verified>, platform: Platform): (found: Option<Verified>)
    ensures found.Some? ==> found.value in components && found.value.platform == platform
    ensures found.None? ==> forall v | v in components :: v.platform != platform
  {
    if components == [] then None
    else if components[0].platform == platform then Some(components[0])
    else FirstVerified(components[1..], platform)
  }

  predicate Rejected(report: Report, platform: Platform) {
    exists p | p in report.problems :: p.platform == platform
  }

  // ---- names ---------------------------------------------------------------------------

  function Expand(name: string, version: string): string {
    if |name| < 9 then name
    else if name[..9] == "{version}" then version + Expand(name[9..], version)
    else [name[0]] + Expand(name[1..], version)
  }

  function NamesOf(specs: seq<AssetSpec>, version: string): (names: seq<string>)
    ensures |names| == |specs|
    ensures forall i | 0 <= i < |specs| :: names[i] == Expand(specs[i].name, version)
  {
    seq(|specs|, i requires 0 <= i < |specs| => Expand(specs[i].name, version))
  }

  function Names(c: Component, version: string): seq<string> {
    match c.kind
    case ServerImage => []
    case Player(_, _, assets) => NamesOf(assets, version)
  }

  const PLACEHOLDER := "{version}"

  predicate PlaceholderAt(text: string, i: nat) { i + 9 <= |text| && text[i..i + 9] == PLACEHOLDER }

  ghost predicate HasPlaceholder(text: string) { exists i: nat :: PlaceholderAt(text, i) }

  /** `str.replace`: wherever the placeholder stands, the version does, and the text
      between is as it was. */
  lemma {:induction false} ExpandsEach(between: string, rest: string, version: string)
    requires !HasPlaceholder(between)
    ensures Expand(between + (PLACEHOLDER + rest), version) == between + (version + Expand(rest, version))
  {
    var name := between + (PLACEHOLDER + rest);
    if between == "" {
      assert name == PLACEHOLDER + rest;
      assert name[..9] == PLACEHOLDER && name[9..] == rest;
    } else {
      NotHere(between, rest);
      assert Expand(name, version) == [name[0]] + Expand(name[1..], version);
      hide Expand;
      assert name[1..] == between[1..] + (PLACEHOLDER + rest);
      NotFurther(between);
      ExpandsEach(between[1..], rest, version);
      assert [between[0]] + between[1..] == between;
    }
  }

  /** The placeholder does not overlap itself, so none starts in the text before one. */
  lemma NotHere(between: string, rest: string)
    requires between != "" && !HasPlaceholder(between)
    ensures (between + (PLACEHOLDER + rest))[..9] != PLACEHOLDER
  {
    var name := between + (PLACEHOLDER + rest);
    if |between| >= 9 {
      assert between[0..0 + 9] == name[..9] && !PlaceholderAt(between, 0);
    } else {
      assert name[..9][|between|] == name[|between|] == PLACEHOLDER[0] != PLACEHOLDER[|between|];
    }
  }

  lemma NotFurther(text: string)
    requires text != "" && !HasPlaceholder(text)
    ensures !HasPlaceholder(text[1..])
  {
    if HasPlaceholder(text[1..]) {
      var i: nat :| PlaceholderAt(text[1..], i);
      assert text[i + 1..i + 1 + 9] == text[1..][i..i + 9];
      assert PlaceholderAt(text, i + 1);
    }
  }

  lemma {:induction false} ExpandsNothing(text: string, version: string)
    requires !HasPlaceholder(text)
    ensures Expand(text, version) == text
  {
    if |text| >= 9 {
      assert text[0..0 + 9] == text[..9] && !PlaceholderAt(text, 0);
      NotFurther(text);
      ExpandsNothing(text[1..], version);
      assert [text[0]] + text[1..] == text;
    }
  }

  predicate CleanName(name: string) {
    name != "" && '\n' !in name && name[0] != '*'
  }

  ghost predicate DistinctIds(components: seq<Component>) {
    forall i, j | 0 <= i < |components| && 0 <= j < |components| && components[i].id == components[j].id :: i == j
  }

  /** Distinct components, players with at least one asset, and asset names that are
      distinct, plain, and not one of the two files the release writes itself. */
  ghost predicate WellFormed(contract: Contract, version: string) {
    var components := contract.components;
    && DistinctIds(components)
    && (forall c | c in components && c.kind.Player? :: c.kind.assets != [])
    && (forall c, name | c in components && name in Names(c, version) ::
          CleanName(name) && name != INVENTORY && name != CHECKSUMS)
    && (forall c, d, name | c in components && d in components && name in Names(c, version)
      && name in Names(d, version) ::
          c == d)
  }

  // ---- one component's inventory entry ------------------------------------------------------

  datatype Job = Job(contract: Contract, version: string, channel: Channel, commit: string,
                     report: Report, serverDigest: string, plan: ReusePlan)

  datatype BuildError =
    | BadVersion | WrongChannel | WrongReport | StrayFile | CarriedAndBuilt(id: string) | MissingRequired

  predicate Carried(plan: ReusePlan, id: string) {
    id in plan.decisions && plan.decisions[id].ToInherit?
  }

  function InheritedEntry(d: Decision): Entry
    requires d.ToInherit?
  {
    Available(Inherited(d.source), d.versionName, Some(d.versionCode), Some(d.channel), Some(d.inputs), d.payload)
  }

  function Measure(m: Meter, files: Directory, specs: seq<AssetSpec>, version: string): seq<Asset>
    requires forall name | name in NamesOf(specs, version) :: name in files
  {
    seq(|specs|, i requires 0 <= i < |specs| =>
      var name := NamesOf(specs, version)[i];
      Asset(name, specs[i].role, m.size(files[name]), m.sha256(files[name])))
  }

  function PlatformOf(c: Component): Option<Platform> {
    match c.kind
    case ServerImage => None
    case Player(family, architecture, _) => Some(Platform(family, architecture))
  }

  function Status(m: Meter, job: Job, code: nat, files: Directory, c: Component): Result<Entry, BuildError> {
    var inputs := Inputs.Lookup(job.plan.inputs, c.id);
    match c.kind
    case ServerImage =>
      if Carried(job.plan, c.id) then
        if job.serverDigest != "" then Err(CarriedAndBuilt(c.id)) else Ok(InheritedEntry(job.plan.decisions[c.id]))
      else if job.serverDigest != "" then
        Ok(Available(Built, job.version, Some(code), Some(job.channel), inputs,
                     Image(job.contract.serverImage, job.version, job.serverDigest)))
      else Ok(Unavailable)
    case Player(family, architecture, specs) =>
      var names := NamesOf(specs, job.version);
      var platform := Platform(family, architecture);
      if Carried(job.plan, c.id) then
        if exists name | name in names :: name in files then Err(CarriedAndBuilt(c.id))
        else Ok(InheritedEntry(job.plan.decisions[c.id]))
      else
        match FirstVerified(job.report.components, platform)
        case Some(v) =>
          if (forall name | name in names :: name in files) && !Rejected(job.report, platform) then
            Ok(Available(Built, v.versionName, Some(v.versionCode), Some(v.channel), inputs,
                         Assets(Measure(m, files, specs, job.version))))
          else Ok(Unavailable)
        case None => Ok(Unavailable)
  }

  lemma InheritedStatus(m: Meter, job: Job, code: nat, files: Directory, c: Component, e: Entry)
    requires Status(m, job, code, files, c) == Ok(e) && e.Available? && e.origin.Inherited?
    ensures Carried(job.plan, c.id) && e == InheritedEntry(job.plan.decisions[c.id])
  {
    hide Measure, Rejected;
  }

  // ---- build --------------------------------------------------------------------------------------

  ghost function Allowed(job: Job): set<string> {
    {INVENTORY, CHECKSUMS} + set c, name | c in job.contract.components && name in Names(c, job.version) :: name
  }

  /** An inventory item is what the contract component's status is. */
  ghost predicate Lists(m: Meter, job: Job, code: nat, files: Directory, c: Component, item: Item) {
    && item.id == c.id && item.required == (job.channel in c.required) && item.platform == PlatformOf(c)
    && Status(m, job, code, files, c) == Ok(item.entry)
  }

  ghost predicate ListsAll(m: Meter, job: Job, code: nat, files: Directory, items: seq<Item>) {
    && |items| == |job.contract.components|
    && forall i | 0 <= i < |items| :: Lists(m, job, code, files, job.contract.components[i], items[i])
  }

  predicate CarriesFiles(entry: Entry) {
    entry.Available? && entry.origin.Built? && entry.payload.Assets?
  }

  /** The names of what a release itself carries. */
  ghost function OwnNames(items: seq<Item>): set<string> {
    set item, asset | item in items && CarriesFiles(item.entry) && asset in item.entry.payload.assets :: asset.name
  }

  ghost predicate Dropped(job: Job, items: seq<Item>, name: string)
    requires |items| == |job.contract.components|
  {
    exists i | 0 <= i < |items| :: items[i].entry.Unavailable? && name in Names(job.contract.components[i], job.version)
  }

  ghost predicate Records(m: Meter, files: Directory, names: set<string>, assets: seq<Recorded>) {
    && (set a | a in assets :: a.name) == names
    && forall a | a in assets ::
      a.name in files && a.size == m.size(files[a.name]) && a.sha256 == m.sha256(files[a.name])
  }

  ghost function Kept(job: Job, items: seq<Item>, files: Directory): Directory
    requires |items| == |job.contract.components|
  {
    map name | name in files && !Dropped(job, items, name) :: files[name]
  }

  /** The job's inputs are for one version, and every file is the contract's. */
  ghost predicate Consistent(job: Job, files: Directory) {
    && ParseTag("v" + job.version).Some? && ParseTag("v" + job.version).value.channel == Some(job.channel)
    && job.report.version == job.version && job.report.channel == job.channel
    && files.Keys <= Allowed(job)
  }

  /** What a successful build leaves: an inventory of every component, the files of
      the components this release carries and no others, and their checksums. */
  ghost predicate Assembled(m: Meter, job: Job, before: Directory, inventory: Inventory, after: Directory) {
    && Consistent(job, before)
    && inventory.version == job.version && inventory.tag == "v" + job.version
    && inventory.channel == job.channel && inventory.commit == job.commit
    && inventory.versionCode == ParseTag("v" + job.version).value.code
    && ListsAll(m, job, inventory.versionCode, before, inventory.components)
    && (forall item | item in inventory.components && item.required :: item.entry.Available?)
    && Records(m, before, OwnNames(inventory.components), inventory.assets)
    && var kept := Kept(job, inventory.components, before)[INVENTORY := Json(inventory)];
       after == kept[CHECKSUMS := Bytes(ChecksumText(m, kept, Sorted(kept.Keys - {CHECKSUMS})))]
  }

  // ---- checksums ------------------------------------------------------------------------------------

  function ChecksumLine(digest: string, name: string): string { digest + "  " + name }

  function ChecksumText(m: Meter, files: Directory, names: seq<string>): string {
    if names == [] then ""
    else
      (if names[0] in files then ChecksumLine(m.sha256(files[names[0]]), names[0]) + "\n" else "")
      + ChecksumText(m, files, names[1..])
  }

  /** `str.isspace`, which `strip` removes. */
  predicate IsSpace(c: char) {
    || '\U{9}' <= c <= '\U{d}' || '\U{1c}' <= c <= '\U{20}' || c == '\U{85}' || c == '\U{a0}' || c == '\U{1680}'
    || '\U{2000}' <= c <= '\U{200a}' || c == '\U{2028}' || c == '\U{2029}' || c == '\U{202f}' || c == '\U{205f}'
    || c == '\U{3000}'
  }

  /** Where the first two spaces in a row start, or the length. */
  function FirstGap(s: string): (i: nat)
    ensures i <= |s|
  {
    if |s| < 2 then |s| else if s[0] == ' ' && s[1] == ' ' then 0 else 1 + FirstGap(s[1..])
  }

  function StripStars(name: string): string {
    if name != "" && name[0] == '*' then StripStars(name[1..]) else name
  }

  datatype ParsedLine = Blank | Malformed | Sum(name: string, digest: string)

  function ParseLine(line: string): ParsedLine {
    if forall c | c in line :: IsSpace(c) then Blank
    else
      var gap := FirstGap(line);
      if gap != 64 || |line| < 67 then Malformed else Sum(StripStars(line[66..]), line[..64])
  }

  function SplitLines(text: string): seq<string>
    decreases |text|
  {
    if text == "" then [] else [Before(text, '\n')] + SplitLines(After(text, '\n'))
  }

  /** The entries of the lines read so far; a later line for a name wins. */
  function Sums(lines: seq<string>): Option<map<string, string>> {
    if lines == [] then Some(map[])
    else
      match (Sums(lines[..|lines| - 1]), ParseLine(lines[|lines| - 1]))
      case (None, _) => None
      case (_, Malformed) => None
      case (Some(sums), Blank) => Some(sums)
      case (Some(sums), Sum(name, digest)) => Some(sums[name := digest])
  }

  /** `parse_checksums`: None exactly when some line is malformed; otherwise a name is
      recorded exactly when some line records it, with the digest of the last. */
  method ParseChecksums(text: string) returns (entries: Option<map<string, string>>)
    ensures entries == Sums(SplitLines(text))
    ensures entries.None? <==> exists line :: line in SplitLines(text) && ParseLine(line).Malformed?
    ensures entries.Some? ==> ReadsLast(SplitLines(text), entries.value)
  {
    var lines := SplitLines(text);
    SumsRead(lines);
    var read: map<string, string> := map[];
    for i := 0 to |lines|
      invariant Sums(lines[..i]) == Some(read)
    {
      assert lines[..i + 1][..i] == lines[..i];
      match ParseLine(lines[i])
      case Blank =>
      case Malformed =>
        MalformedStays(lines, i + 1);
        return None;
      case Sum(name, digest) =>
        read := read[name := digest];
    }
    assert lines[..|lines|] == lines;
    entries := Some(read);
  }

  predicate IsFor(line: string, name: string) { ParseLine(line).Sum? && ParseLine(line).name == name }

  /** Each name recorded is on some line, and has the digest of the last such line. */
  ghost predicate ReadsLast(lines: seq<string>, sums: map<string, string>) {
    && (forall name | name in sums :: exists i | 0 <= i < |lines| :: IsFor(lines[i], name))
    && forall i | 0 <= i < |lines| && ParseLine(lines[i]).Sum? ::
         && ParseLine(lines[i]).name in sums
         && (LastFor(lines, i) ==> sums[ParseLine(lines[i]).name] == ParseLine(lines[i]).digest)
  }

  ghost predicate LastFor(lines: seq<string>, i: nat)
    requires i < |lines| && ParseLine(lines[i]).Sum?
  {
    forall j | i < j < |lines| :: !IsFor(lines[j], ParseLine(lines[i]).name)
  }

  lemma {:induction false} SumsRead(lines: seq<string>)
    ensures Sums(lines).None? <==> exists line :: line in lines && ParseLine(line).Malformed?
    ensures Sums(lines).Some? ==> ReadsLast(lines, Sums(lines).value)
  {
    hide ParseLine;
    if lines != [] {
      var front, last := lines[..|lines| - 1], lines[|lines| - 1];
      SumsRead(front);
      assert lines == front + [last];
      if Sums(lines).Some? {
        LastLineWins(front, last, Sums(front).value, Sums(lines).value);
      }
    }
  }

  lemma LastLineWins(front: seq<string>, last: string, before: map<string, string>, sums: map<string, string>)
    requires ReadsLast(front, before) && !ParseLine(last).Malformed?
    requires sums == if ParseLine(last).Sum? then before[ParseLine(last).name := ParseLine(last).digest] else before
    ensures ReadsLast(front + [last], sums)
  {
    hide ParseLine;
    var lines, n := front + [last], |front|;
    forall name | name in sums ensures exists i | 0 <= i < |lines| :: IsFor(lines[i], name) {
      if ParseLine(last).Sum? && name == ParseLine(last).name {
        assert IsFor(lines[n], name);
      } else {
        var i :| 0 <= i < n && IsFor(front[i], name);
        assert IsFor(lines[i], name);
      }
    }
    forall i | 0 <= i < |lines| && ParseLine(lines[i]).Sum?
      ensures ParseLine(lines[i]).name in sums
      ensures LastFor(lines, i) ==> sums[ParseLine(lines[i]).name] == ParseLine(lines[i]).digest
    {
      if i < n && LastFor(lines, i) {
        assert lines[n] == last && !IsFor(lines[n], ParseLine(lines[i]).name);
        assert LastFor(front, i) by {
          forall j | i < j < |front| ensures !IsFor(front[j], ParseLine(front[i]).name) {
            assert lines[j] == front[j];
          }
        }
      }
    }
  }

  lemma {:induction false} MalformedStays(lines: seq<string>, n: nat)
    requires n <= |lines| && Sums(lines[..n]) == None
    ensures Sums(lines) == None
    decreases |lines|
  {
    if n == |lines| {
      assert lines[..n] == lines;
    } else {
      var front := lines[..|lines| - 1];
      assert front[..n] == lines[..n];
      MalformedStays(front, n);
    }
  }

  lemma {:induction false} GapAfterDigest(digest: string, tail: string)
    requires forall c | c in digest :: c != ' '
    ensures FirstGap(digest + "  " + tail) == |digest|
  {
    var s := digest + "  " + tail;
    if digest == "" {
      assert s[0] == ' ' && s[1] == ' ';
    } else {
      assert s[1..] == digest[1..] + "  " + tail;
      assert s[0] == digest[0] && digest[0] in digest;
      assert forall c | c in digest[1..] :: c in digest;
      GapAfterDigest(digest[1..], tail);
    }
  }

  // ---- what a line of a checksum file says ----------------------------------------------------

  /** Two spaces in a row at a place. */
  predicate GapAt(s: string, i: nat) { i + 1 < |s| && s[i] == ' ' && s[i + 1] == ' ' }

  lemma {:induction false} GapIsFirst(s: string)
    ensures forall i | 0 <= i < FirstGap(s) :: !GapAt(s, i)
    ensures FirstGap(s) < |s| ==> GapAt(s, FirstGap(s))
  {
    if |s| >= 2 && !(s[0] == ' ' && s[1] == ' ') {
      GapIsFirst(s[1..]);
      forall i | 0 <= i < FirstGap(s) ensures !GapAt(s, i) {
        if i > 0 { assert !GapAt(s[1..], i - 1); }
      }
    }
  }

  lemma {:induction false} StarsStripped(name: string)
    ensures exists n | 0 <= n <= |name| :: StripStars(name) == name[n..] && forall i | 0 <= i < n :: name[i] == '*'
    ensures StripStars(name) == "" || StripStars(name)[0] != '*'
  {
    if name != "" && name[0] == '*' {
      var rest := name[1..];
      StarsStripped(rest);
      var n :| 0 <= n <= |rest| && StripStars(rest) == rest[n..] && forall i | 0 <= i < n :: rest[i] == '*';
      assert StripStars(name) == name[n + 1..];
      forall i | 0 <= i < n + 1 ensures name[i] == '*' {
        if i > 0 { assert name[i] == rest[i - 1]; }
      }
    } else {
      assert StripStars(name) == name[0..];
    }
  }

  /** What a line records: sixty-four characters up to the first gap, two spaces, and
      the name after any stars. */
  ghost predicate LineSays(line: string, digest: string, name: string) {
    && |line| > 66 && line[..64] == digest && GapAt(line, 64) && (forall i | 0 <= i < 64 :: !GapAt(line, i))
    && (exists n | 66 <= n <= |line| :: line[n..] == name && forall i | 66 <= i < n :: line[i] == '*')
    && (name == "" || name[0] != '*')
  }

  predicate AllSpace(line: string) { forall c | c in line :: IsSpace(c) }

  /** A line is passed over exactly when it is blank, and malformed exactly when it is
      neither blank nor such a line. */
  lemma LineExactly(line: string)
    ensures ParseLine(line) == Blank <==> AllSpace(line)
    ensures forall name, digest :: ParseLine(line) == Sum(name, digest) <==>
      !AllSpace(line) && LineSays(line, digest, name)
    ensures ParseLine(line).Malformed? <==> !AllSpace(line) && !exists name, digest :: LineSays(line, digest, name)
  {
    hide IsSpace;
    GapIsFirst(line);
    if |line| > 66 {
      var tail := line[66..];
      StarsStripped(tail);
      StarsAfter(line);
      forall name, digest | LineSays(line, digest, name) ensures name == StripStars(tail) {
        OneWayToStrip(line, digest, name);
      }
    }
  }

  lemma StarsAfter(line: string)
    requires |line| > 66
    ensures exists n | 66 <= n <= |line| ::
      line[n..] == StripStars(line[66..]) && forall i | 66 <= i < n :: line[i] == '*'
  {
    var tail := line[66..];
    StarsStripped(tail);
    var n :| 0 <= n <= |tail| && StripStars(tail) == tail[n..] && forall i | 0 <= i < n :: tail[i] == '*';
    assert line[n + 66..] == tail[n..];
    forall i | 66 <= i < n + 66 ensures line[i] == '*' { assert line[i] == tail[i - 66]; }
  }

  lemma OneWayToStrip(line: string, digest: string, name: string)
    requires LineSays(line, digest, name)
    ensures name == StripStars(line[66..])
  {
    StarsAfter(line);
    StarsStripped(line[66..]);
    var n :| 66 <= n <= |line| && line[n..] == name && forall i | 66 <= i < n :: line[i] == '*';
    var k :| 66 <= k <= |line| && line[k..] == StripStars(line[66..]) && forall i | 66 <= i < k :: line[i] == '*';
    assert n < |line| ==> line[n] != '*' by { assert n < |line| ==> name[0] == line[n]; }
    assert k < |line| ==> line[k] != '*' by { assert k < |line| ==> StripStars(line[66..])[0] == line[k]; }
    assert n == k;
  }

  lemma LineReads(digest: string, name: string)
    requires HexDigest(digest) && CleanName(name)
    ensures ParseLine(ChecksumLine(digest, name)) == Sum(name, digest)
    ensures '\n' !in ChecksumLine(digest, name)
  {
    var line := ChecksumLine(digest, name);
    assert line[0] == digest[0] && digest[0] in digest && line[0] in line;
    GapAfterDigest(digest, name);
    assert line[66..] == name && line[..64] == digest;
  }

  /** What a listing of files records for each of some names. */
  ghost function SumsOf(m: Meter, files: Directory, names: set<string>): map<string, string>
    requires names <= files.Keys
  {
    map name | name in names :: m.sha256(files[name])
  }

  function LinesOf(m: Meter, files: Directory, names: seq<string>): seq<string>
    requires forall name | name in names :: name in files
  {
    if names == [] then []
    else [ChecksumLine(m.sha256(files[names[0]]), names[0])] + LinesOf(m, files, names[1..])
  }

  lemma {:induction false} TextSplits(m: Meter, files: Directory, names: seq<string>)
    requires HexDigests(m) && forall name | name in names :: name in files && CleanName(name)
    ensures SplitLines(ChecksumText(m, files, names)) == LinesOf(m, files, names)
  {
    if names != [] {
      var line, rest := ChecksumLine(m.sha256(files[names[0]]), names[0]), ChecksumText(m, files, names[1..]);
      LineReads(m.sha256(files[names[0]]), names[0]);
      assert ChecksumText(m, files, names) == line + ['\n'] + rest;
      BeforeIsFirst(line, '\n', rest);
      TextSplits(m, files, names[1..]);
    }
  }

  lemma {:induction false} LinesOfAppend(m: Meter, files: Directory, names: seq<string>, name: string)
    requires forall n | n in names + [name] :: n in files
    ensures LinesOf(m, files, names + [name]) == LinesOf(m, files, names) + [ChecksumLine(m.sha256(files[name]), name)]
  {
    if names == [] {
      assert LinesOf(m, files, []) == [] && [name][1..] == [];
    } else {
      assert (names + [name])[1..] == names[1..] + [name];
      LinesOfAppend(m, files, names[1..], name);
    }
  }

  /** Reading a written checksum file gives back every name with its digest. */
  lemma {:induction false} ChecksumsRoundTrip(m: Meter, files: Directory, names: seq<string>)
    requires HexDigests(m) && forall name | name in names :: name in files && CleanName(name)
    ensures Elements(names) <= files.Keys
    ensures Sums(LinesOf(m, files, names)) == Some(SumsOf(m, files, Elements(names)))
  {
    if names == [] {
      assert SumsOf(m, files, Elements(names)) == map[];
    } else {
      var front, last := names[..|names| - 1], names[|names| - 1];
      assert names == front + [last];
      ChecksumsRoundTrip(m, files, front);
      LinesOfAppend(m, files, front, last);
      LineReads(m.sha256(files[last]), last);
      var lines := LinesOf(m, files, names);
      assert lines[..|lines| - 1] == LinesOf(m, files, front);
      assert Elements(names) == Elements(front) + {last};
      assert SumsOf(m, files, Elements(front))[last := m.sha256(files[last])] == SumsOf(m, files, Elements(names));
    }
  }
}
