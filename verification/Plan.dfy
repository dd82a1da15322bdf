/** What a coordinated release may do: whether it may be published, which earlier
    releases it follows, and which Server image aliases it moves
    (scripts/release/release_plan.py). */
module Plan {
  import opened Text
  import opened Versions

  /** One row of `gh release list`. */
  datatype Listed = Listed(tagName: string, isDraft: bool)

  datatype State = Published | Draft | New

  datatype Aliases = Aliases(stable: bool, latest: bool, beta: bool)

  datatype Planned = Planned(version: Version, state: State, previous: Option<Version>,
                             nearest: Option<Version>, aliases: Aliases)

  datatype PlanError = BadTag | StableNotNewer | BetaNotNewer

  // ---- what the decisions mean ----------------------------------------------------

  predicate FromTag(version: Version) { ParseTag("v" + version.name) == Some(version) }

  ghost predicate Coordinated(versions: set<Version>) { forall v | v in versions :: FromTag(v) }

  /** The versions a release list publishes: what a tag of it parses to, drafts aside. */
  ghost function PublishedIn(releases: seq<Listed>): (versions: set<Version>)
    ensures Coordinated(versions)
  {
    set r | r in releases && !r.isDraft && ParseTag(r.tagName).Some? :: ParseTag(r.tagName).value
  }

  predicate Tracks(channel: Option<Channel>, version: Version) {
    channel.None? || version.channel == channel
  }

  /** `found` has the highest code of the versions of a channel, or there is none. */
  ghost predicate IsNewest(versions: set<Version>, channel: Option<Channel>, found: Option<Version>) {
    match found
    case None => forall v | v in versions :: !Tracks(channel, v)
    case Some(newest) =>
      && newest in versions && Tracks(channel, newest)
      && forall v | v in versions && Tracks(channel, v) :: v.code <= newest.code
  }

  ghost predicate Owns(versions: set<Version>, channel: Option<Channel>, version: Version) {
    IsNewest(versions, channel, Some(version))
  }

  /** A moved alias goes to a newest release it tracks; where codes are distinct
      that release is the only one, and it moves every alias it is due. */
  ghost predicate Entitled(versions: set<Version>, version: Version, aliases: Aliases) {
    && aliases.latest == aliases.stable
    && (aliases.stable ==> Owns(versions, Some(Stable), version))
    && (aliases.beta ==> Owns(versions, None, version))
    && (DistinctCodes(versions) ==>
      && aliases.stable == Owns(versions, Some(Stable), version)
      && aliases.beta == Owns(versions, None, version))
  }

  ghost predicate DistinctCodes(versions: set<Version>) {
    forall v, w | v in versions && w in versions && v.code == w.code :: v == w
  }

  /** A Stable above every published Stable, a Beta above everything published. */
  ghost predicate MayPublish(published: set<Version>, version: Version) {
    forall v | v in published && (version.channel == Some(Beta) || v.channel == Some(Stable)) :: v.code < version.code
  }

  ghost function Earlier(versions: set<Version>, version: Version): set<Version> {
    set v | v in versions && v.code < version.code
  }

  /** The channel whose newest earlier release a release follows. */
  function Followed(version: Version): Option<Channel> {
    if version.channel == Some(Stable) then Some(Stable) else None
  }

  // ---- the script ------------------------------------------------------------------

  ghost predicate Descending(versions: seq<Version>) {
    forall i, j | 0 <= i < j < |versions| :: versions[j].code <= versions[i].code
  }

  ghost predicate KeyedByName(found: map<string, Version>) {
    forall name | name in found :: found[name].name == name && FromTag(found[name])
  }

  method ListPublished(releases: seq<Listed>) returns (versions: seq<Version>)
    ensures Descending(versions) && Elements(versions) == PublishedIn(releases)
  {
    hide ParseTag, KeyedByName;
    var found: map<string, Version> := map[];
    assert KeyedByName(found) by { NothingFound(); }
    for i := 0 to |releases|
      invariant KeyedByName(found) && found.Values == PublishedIn(releases[..i])
    {
      var release := releases[i];
      assert releases[..i + 1] == releases[..i] + [release];
      if !release.isDraft {
        var parsed := ParseTag(release.tagName);
        if parsed.Some? {
          ghost var before := found;
          found := found[parsed.value.name := parsed.value];
          Rewritten(before, parsed.value);
        }
      }
    }
    assert releases[..|releases|] == releases;
    versions := SortByCode(found.Values);
  }

  lemma NothingFound()
    ensures KeyedByName(map[])
  {
  }

  /** A dictionary keyed by name only ever rewrites a version with itself. */
  lemma Rewritten(found: map<string, Version>, version: Version)
    requires KeyedByName(found) && FromTag(version)
    ensures KeyedByName(found[version.name := version])
    ensures found[version.name := version].Values == found.Values + {version}
  {
    hide ParseTag;
    var after := found[version.name := version];
    assert version.name in after && after[version.name] == version;
    forall v | v in found.Values ensures v in after.Values {
      var name :| name in found && found[name] == v;
      assert name in after && after[name] == v;
    }
  }

  method SortByCode(versions: set<Version>) returns (sorted: seq<Version>)
    ensures Descending(sorted) && Elements(sorted) == versions
  {
    sorted := [];
    var rest := versions;
    while rest != {}
      invariant rest <= versions
      invariant Descending(sorted) && Elements(sorted) == versions - rest
    {
      var version :| version in rest;
      var i := 0;
      while i < |sorted| && version.code <= sorted[i].code
        invariant 0 <= i <= |sorted|
        invariant forall j | 0 <= j < i :: version.code <= sorted[j].code
      {
        i := i + 1;
      }
      var longer := sorted[..i] + [version] + sorted[i..];
      assert sorted == sorted[..i] + sorted[i..];
      assert Elements(longer) == Elements(sorted) + {version};
      sorted := longer;
      rest := rest - {version};
    }
  }

  method Newest(versions: seq<Version>, channel: Option<Channel>) returns (found: Option<Version>)
    requires Descending(versions)
    ensures IsNewest(Elements(versions), channel, found)
    ensures channel.Some? && found.Some? ==> found.value.channel == channel
    ensures found.None? ==> forall v | v in versions :: channel.Some? && v.channel != channel
  {
    for i := 0 to |versions|
      invariant forall j | 0 <= j < i :: !Tracks(channel, versions[j])
    {
      if Tracks(channel, versions[i]) {
        return Some(versions[i]);
      }
    }
    found := None;
  }

  method AliasesFor(version: Version, published: seq<Version>) returns (aliases: Aliases)
    requires FromTag(version) && Coordinated(Elements(published))
    ensures Entitled(Elements(published) + {version}, version, aliases)
  {
    hide ParseTag;
    var ordered := SortByCode((set v | v in published) + {version});
    var newestStable := Newest(ordered, Some(Stable));
    var newestAny := Newest(ordered, None);
    var stable := version.channel == Some(Stable) && newestStable.Some? && newestStable.value.name == version.name;
    aliases := Aliases(stable, stable, newestAny.Some? && newestAny.value.name == version.name);
    assert version in Elements(ordered);
    forall v | v in Elements(ordered) && v.name == version.name ensures v == version {
      assert FromTag(v);
    }
  }

  /** The whole decision. A tag already published is never refused; another is
      published exactly when the ordering rule lets it. */
  method PlanRelease(tag: string, releases: seq<Listed>) returns (r: Result<Planned, PlanError>)
    ensures r.Err? && r.error == BadTag <==> ParseTag(tag).None?
    ensures ParseTag(tag).Some? ==>
      var version, published := ParseTag(tag).value, PublishedIn(releases);
      && (r.Ok? <==> version in published || MayPublish(published, version))
      && (r.Ok? ==>
        && r.value.version == version
        && (r.value.state == Published <==> version in published)
        && (r.value.state == Draft <==> version !in published && Listed(tag, true) in releases)
        && IsNewest(Earlier(published, version), Followed(version), r.value.previous)
        && IsNewest(Earlier(published, version), None, r.value.nearest)
        && Entitled(published + {version}, version, r.value.aliases))
  {
    hide ParseTag;
    var parsed := ParseTag(tag);
    if parsed.None? {
      return Err(BadTag);
    }
    var version := parsed.value;
    var versions := ListPublished(releases);
    var state := New;
    if exists v | v in versions :: v.name == version.name {
      state := Published;
    } else if Listed(tag, true) in releases {
      state := Draft;
    }
    ghost var published := Elements(versions);
    CodeSlot(version);
    forall v | v in published && v.name == version.name ensures v == version {
      assert FromTag(v);
    }
    assert state == Published <==> version in published;
    var newestStable := Newest(versions, Some(Stable));
    var newestAny := Newest(versions, None);
    if state != Published {
      if version.channel == Some(Stable) && newestStable.Some? && version.code <= newestStable.value.code {
        return Err(StableNotNewer);
      }
      if version.channel == Some(Beta) && newestAny.Some? && version.code <= newestAny.value.code {
        return Err(BetaNotNewer);
      }
    }
    var earlier := SortByCode(set v | v in versions && v.code < version.code);
    assert Elements(earlier) == Earlier(published, version);
    var previous := Newest(earlier, Followed(version));
    var nearest := Newest(earlier, None);
    var aliases := AliasesFor(version, versions);
    r := Ok(Planned(version, state, previous, nearest, aliases));
  }

  /** A Beta's slot is never Stable's, so the ordering rule alone keeps codes apart. */
  lemma ChannelsNeverShareACode(v: Version, w: Version)
    requires FromTag(v) && FromTag(w) && v.channel != w.channel
    ensures v.code != w.code
  {
    CodeSlot(v);
    CodeSlot(w);
  }

  lemma CodeSlot(v: Version)
    requires FromTag(v)
    ensures v.channel == Some(Stable) || v.channel == Some(Beta)
    ensures v.code % 100 == 99 <==> v.channel == Some(Stable)
  {
    hide ParseVersion, ParseTag, FromTag, Slot;
    TagName(v);
    ParsedShape(v.name);
    assert v.channel.value == Stable || v.channel.value == Beta;
    LastTwoDigits(v.core.Code(), Slot(v.name));
  }

  lemma LastTwoDigits(a: nat, slot: nat)
    requires slot < 100
    ensures (a * 100 + slot) % 100 == slot
  {
  }

  lemma TagName(v: Version)
    requires FromTag(v)
    ensures ParseVersion(v.name) == Some(v) && v.Unified() && v.channel.Some?
  {
    hide ParseVersion;
    assert ("v" + v.name)[1..] == v.name;
  }

  lemma PublishingKeepsCodesDistinct(published: set<Version>, version: Version)
    requires Coordinated(published) && DistinctCodes(published) && FromTag(version)
    requires MayPublish(published, version)
    ensures DistinctCodes(published + {version})
    ensures version !in published
  {
    hide ParseTag;
    forall v | v in published ensures v.code != version.code {
      CodeSlot(version);
      if v.channel != version.channel {
        ChannelsNeverShareACode(v, version);
      }
    }
  }
}
