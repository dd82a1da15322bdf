/** Bringing the files of several builds, and of a resumed draft, into one release
    directory (`collect` of scripts/release/release_assemble.py). */
module Collect {
  import opened Text
  import opened Assemble
  import Inputs

  datatype CollectError = BadChecksums | Corrupt(name: string) | NotListed(name: string) | Conflicting(name: string)

  /** The asset names of the contract's components at a version. */
  function AssetNames(contract: Contract, version: string): set<string> {
    set c, name | c in contract.components && name in Names(c, version) :: name
  }

  predicate IsAsset(wanted: set<string>, name: string) { name in wanted && name != INVENTORY && name != CHECKSUMS }

  /** What a source's own checksums say of the files it holds. */
  ghost predicate Intact(m: Meter, source: Directory) {
    CHECKSUMS in source ==>
      && source[CHECKSUMS].Bytes?
      && var sums := Sums(SplitLines(source[CHECKSUMS].data));
         sums.Some? && forall name | name in sums.value && name in source :: sums.value[name] == m.sha256(source[name])
  }

  predicate Stray(wanted: set<string>, name: string) {
    name !in wanted && name != INVENTORY && name != CHECKSUMS && "tilecast-" <= name
  }

  ghost predicate Listed(wanted: set<string>, source: Directory) {
    forall name | name in source :: !Stray(wanted, name)
  }

  /** The file of a name in the first source that holds it. */
  function FirstOf(sources: seq<Directory>, name: string): Option<Content> {
    if sources == [] then None
    else if FirstOf(sources[..|sources| - 1], name).Some? then FirstOf(sources[..|sources| - 1], name)
    else Inputs.Lookup(sources[|sources| - 1], name)
  }

  /** Sources that hold one asset hold the same bytes. */
  ghost predicate Agree(m: Meter, wanted: set<string>, sources: seq<Directory>) {
    forall i, j, name | 0 <= i < |sources| && 0 <= j < |sources| && IsAsset(wanted, name) && name in sources[i]
      && name in sources[j] ::
      m.sha256(sources[i][name]) == m.sha256(sources[j][name])
  }

  ghost predicate Collectable(m: Meter, wanted: set<string>, sources: seq<Directory>) {
    && (forall i | 0 <= i < |sources| :: Intact(m, sources[i]) && Listed(wanted, sources[i]))
    && Agree(m, wanted, sources)
  }

  ghost predicate IsCollected(wanted: set<string>, sources: seq<Directory>, out: Directory) {
    forall name :: Inputs.Lookup(out, name) == if IsAsset(wanted, name) then FirstOf(sources, name) else None
  }

  /** Ok exactly when every source is intact and lists only the contract's files, and
      no two disagree; then what is collected is every asset any source holds, from
      the first that does. */
  method CollectFiles(m: Meter, contract: Contract, version: string, sources: seq<Directory>)
    returns (r: Result<Directory, CollectError>)
    ensures var wanted := AssetNames(contract, version);
      && (r.Ok? <==> Collectable(m, wanted, sources))
      && (r.Ok? ==> IsCollected(wanted, sources, r.value))
  {
    hide Intact, Listed, Agree, IsCollected, FirstOf, IsAsset;
    var wanted := AssetNames(contract, version);
    var collected: Directory := map[];
    NothingCollected(m, wanted);
    for i := 0 to |sources|
      invariant forall j | 0 <= j < i :: Intact(m, sources[j]) && Listed(wanted, sources[j])
      invariant Agree(m, wanted, sources[..i]) && IsCollected(wanted, sources[..i], collected)
    {
      assert sources[..i + 1] == sources[..i] + [sources[i]];
      var problem := CheckSource(m, sources[i]);
      if problem.Some? {
        return Err(problem.value);
      }
      var next := AddSource(m, wanted, sources[..i], sources[i], collected);
      if next.Err? {
        FewerAgree(m, wanted, sources, i + 1);
        return Err(next.error);
      }
      collected := next.value;
    }
    assert sources[..|sources|] == sources;
    r := Ok(collected);
  }

  /** Checksums that can be read, and agree with every file of theirs that is here. */
  ghost predicate Confirms(m: Meter, source: Directory, sums: Content) {
    && sums.Bytes? && Sums(SplitLines(sums.data)).Some?
    && forall name | name in source && name in Sums(SplitLines(sums.data)).value ::
         Sums(SplitLines(sums.data)).value[name] == m.sha256(source[name])
  }

  /** A file that would ship, or be lost, without anybody having listed it. */
  predicate Unlisted(wanted: set<string>, name: string) {
    "tilecast-" <= name && name !in wanted && name !in {"tilecast-release.json", "SHA256SUMS"}
  }

  /** What can be collected, said of the files themselves: each source's own checksums
      confirm it, none holds a file nobody listed, and no two hold different files of
      one asset. */
  lemma CollectsExactly(m: Meter, wanted: set<string>, sources: seq<Directory>)
    ensures Collectable(m, wanted, sources) <==>
      && (forall i | 0 <= i < |sources| && CHECKSUMS in sources[i] :: Confirms(m, sources[i], sources[i][CHECKSUMS]))
      && (forall i, name | 0 <= i < |sources| && name in sources[i] :: !Unlisted(wanted, name))
      && forall i, j, name | 0 <= i < |sources| && 0 <= j < |sources| && name in sources[i] && name in sources[j]
           && name in wanted - {"tilecast-release.json", "SHA256SUMS"} ::
           m.sha256(sources[i][name]) == m.sha256(sources[j][name])
  {
    hide Sums, SplitLines;
    forall i | 0 <= i < |sources|
      ensures Intact(m, sources[i]) <==> (CHECKSUMS in sources[i] ==> Confirms(m, sources[i], sources[i][CHECKSUMS]))
    {
    }
    assert forall name :: Unlisted(wanted, name) <==> Stray(wanted, name);
    assert forall name :: IsAsset(wanted, name) <==> name in wanted - {"tilecast-release.json", "SHA256SUMS"};
    hide Intact, Confirms, Unlisted, Stray, IsAsset;
  }

  lemma NothingCollected(m: Meter, wanted: set<string>)
    ensures Agree(m, wanted, []) && IsCollected(wanted, [], map[])
  {
  }

  lemma FewerAgree(m: Meter, wanted: set<string>, sources: seq<Directory>, n: nat)
    requires n <= |sources|
    ensures Agree(m, wanted, sources) ==> Agree(m, wanted, sources[..n])
  {
  }

  method CheckSource(m: Meter, source: Directory) returns (problem: Option<CollectError>)
    ensures problem.None? <==> Intact(m, source)
  {
    hide Sums, SplitLines, ReadsLast, ParseLine;
    if CHECKSUMS !in source {
      return None;
    }
    if !source[CHECKSUMS].Bytes? {
      return Some(BadChecksums);
    }
    var read := ParseChecksums(source[CHECKSUMS].data);
    if read.None? {
      return Some(BadChecksums);
    }
    var names := SortNames(read.value.Keys);
    for i := 0 to |names|
      invariant forall j | 0 <= j < i && names[j] in source ::
        names[j] in read.value && read.value[names[j]] == m.sha256(source[names[j]])
    {
      assert names[i] in Elements(names);
      if names[i] in source && m.sha256(source[names[i]]) != read.value[names[i]] {
        return Some(Corrupt(names[i]));
      }
    }
    assert forall name | name in read.value :: name in Elements(names);
    problem := None;
  }

  /** What is collected part way through a source. */
  function Taken(wanted: set<string>, names: seq<string>, source: Directory, collected: Directory,
                 name: string): Option<Content> {
    if IsAsset(wanted, name) && name in names && name in source && name !in collected then Some(source[name])
    else Inputs.Lookup(collected, name)
  }

  /** One source's files, in name order, beside what is collected already. */
  method AddSource(m: Meter, wanted: set<string>, before: seq<Directory>, source: Directory, collected: Directory)
    returns (r: Result<Directory, CollectError>)
    requires Agree(m, wanted, before) && IsCollected(wanted, before, collected)
    ensures r.Ok? <==> Listed(wanted, source) && Agree(m, wanted, before + [source])
    ensures r.Ok? ==> IsCollected(wanted, before + [source], r.value)
  {
    hide FirstOf, Agree, IsCollected, IsAsset, Stray;
    var names := SortNames(source.Keys);
    var out := collected;
    for i := 0 to |names|
      invariant forall j | 0 <= j < i :: !Stray(wanted, names[j])
      invariant forall j | 0 <= j < i && IsAsset(wanted, names[j]) && names[j] in collected && names[j] in source ::
        m.sha256(collected[names[j]]) == m.sha256(source[names[j]])
      invariant forall name :: Inputs.Lookup(out, name) == Taken(wanted, names[..i], source, collected, name)
    {
      var name := names[i];
      ghost var was := out;
      assert name in Elements(names);
      NotYetSeen(names, i);
      assert names[..i + 1] == names[..i] + [name];
      assert Inputs.Lookup(out, name) == Inputs.Lookup(collected, name);
      if Stray(wanted, name) {
        return Err(NotListed(name));
      }
      if IsAsset(wanted, name) {
        if name in out {
          if m.sha256(out[name]) != m.sha256(source[name]) {
            Disagrees(m, wanted, before, source, collected, name);
            return Err(Conflicting(name));
          }
        } else {
          out := out[name := source[name]];
        }
      }
      forall n ensures Inputs.Lookup(out, n) == Taken(wanted, names[..i + 1], source, collected, n) {
        assert Inputs.Lookup(was, n) == Taken(wanted, names[..i], source, collected, n);
        TakenNext(wanted, names[..i], name, source, collected, n);
      }
    }
    assert names[..|names|] == names;
    AllTaken(m, wanted, before, source, collected, names, out);
    r := Ok(out);
  }

  lemma TakenNext(wanted: set<string>, names: seq<string>, next: string, source: Directory, collected: Directory,
                  name: string)
    ensures Taken(wanted, names + [next], source, collected, name) ==
      if name == next && IsAsset(wanted, next) && next in source && next !in collected then Some(source[next])
      else Taken(wanted, names, source, collected, name)
  {
  }

  lemma NotYetSeen(names: seq<string>, i: nat)
    requires Ascending(names) && i < |names|
    ensures names[i] !in names[..i]
  {
    LessIsStrict(names[i], names[i]);
  }

  lemma {:induction false} FirstHolds(sources: seq<Directory>, name: string)
    ensures FirstOf(sources, name).Some? ==>
      exists i | 0 <= i < |sources| :: name in sources[i] && FirstOf(sources, name) == Some(sources[i][name])
    ensures FirstOf(sources, name).None? ==> forall i | 0 <= i < |sources| :: name !in sources[i]
  {
    if sources != [] {
      var n := |sources| - 1;
      FirstHolds(sources[..n], name);
      if FirstOf(sources[..n], name).Some? {
        var i :| 0 <= i < n && name in sources[..n][i] && FirstOf(sources[..n], name) == Some(sources[..n][i][name]);
        assert sources[i] == sources[..n][i];
      } else if name in sources[n] {
        assert FirstOf(sources, name) == Some(sources[n][name]);
      } else {
        forall i | 0 <= i < |sources| ensures name !in sources[i] {
          if i < n { assert sources[..n][i] == sources[i]; }
        }
      }
    }
  }

  lemma CollectedFrom(wanted: set<string>, sources: seq<Directory>, out: Directory, name: string) returns (i: nat)
    requires IsCollected(wanted, sources, out) && name in out
    ensures IsAsset(wanted, name) && i < |sources| && name in sources[i] && out[name] == sources[i][name]
  {
    assert Inputs.Lookup(out, name) == FirstOf(sources, name);
    FirstHolds(sources, name);
    i :| 0 <= i < |sources| && name in sources[i] && FirstOf(sources, name) == Some(sources[i][name]);
  }

  lemma Disagrees(m: Meter, wanted: set<string>, before: seq<Directory>, source: Directory, collected: Directory,
                  name: string)
    requires IsCollected(wanted, before, collected) && IsAsset(wanted, name) && name in collected && name in source
    requires m.sha256(collected[name]) != m.sha256(source[name])
    ensures !Agree(m, wanted, before + [source])
  {
    var i := CollectedFrom(wanted, before, collected, name);
    var all := before + [source];
    assert all[i] == before[i] && all[|before|] == source;
  }

  lemma AllTaken(m: Meter, wanted: set<string>, before: seq<Directory>, source: Directory, collected: Directory,
                 names: seq<string>, out: Directory)
    requires Agree(m, wanted, before) && IsCollected(wanted, before, collected) && Elements(names) == source.Keys
    requires forall j | 0 <= j < |names| :: !Stray(wanted, names[j])
    requires forall j | 0 <= j < |names| && IsAsset(wanted, names[j]) && names[j] in collected && names[j] in source ::
      m.sha256(collected[names[j]]) == m.sha256(source[names[j]])
    requires forall name :: Inputs.Lookup(out, name) == Taken(wanted, names, source, collected, name)
    ensures Listed(wanted, source) && Agree(m, wanted, before + [source]) && IsCollected(wanted, before + [source], out)
  {
    hide Stray;
    forall name | name in source ensures name in names { assert name in Elements(names); }
    hide FirstOf, IsAsset;
    var all := before + [source];
    forall name ensures Inputs.Lookup(out, name) == if IsAsset(wanted, name) then FirstOf(all, name) else None {
      OneMoreSource(before, source, name);
      assert Inputs.Lookup(out, name) == Taken(wanted, names, source, collected, name);
    }
    forall i, name | 0 <= i < |before| && IsAsset(wanted, name) && name in before[i] && name in source
      ensures m.sha256(before[i][name]) == m.sha256(source[name])
    {
      FirstHolds(before, name);
      assert Inputs.Lookup(collected, name) == FirstOf(before, name);
      var k := CollectedFrom(wanted, before, collected, name);
      assert name in names;
    }
    OneMoreAgrees(m, wanted, before, source);
  }

  lemma OneMoreSource(before: seq<Directory>, source: Directory, name: string)
    ensures FirstOf(before + [source], name)
      == if FirstOf(before, name).Some? then FirstOf(before, name) else Inputs.Lookup(source, name)
  {
    assert (before + [source])[..|before|] == before;
  }

  lemma OneMoreAgrees(m: Meter, wanted: set<string>, before: seq<Directory>, source: Directory)
    requires Agree(m, wanted, before)
    requires forall i, name | 0 <= i < |before| && IsAsset(wanted, name) && name in before[i] && name in source ::
      m.sha256(before[i][name]) == m.sha256(source[name])
    ensures Agree(m, wanted, before + [source])
  {
    hide IsAsset;
  }

  ghost predicate HeldBySome(sources: seq<Directory>, name: string) {
    exists i | 0 <= i < |sources| :: name in sources[i]
  }

  /** What is collected can be given to `build`: it holds nothing but assets of the
      contract, each as some source holds it, and every asset any source holds. */
  lemma CollectedIsAllowed(m: Meter, job: Job, sources: seq<Directory>, out: Directory, name: string)
    requires IsCollected(AssetNames(job.contract, job.version), sources, out)
    ensures out.Keys <= Allowed(job)
    ensures name in out ==> exists i | 0 <= i < |sources| :: name in sources[i] && out[name] == sources[i][name]
    ensures IsAsset(AssetNames(job.contract, job.version), name) && HeldBySome(sources, name) ==> name in out
  {
    var wanted := AssetNames(job.contract, job.version);
    forall n | n in out ensures n in Allowed(job) {
      var i := CollectedFrom(wanted, sources, out, n);
    }
    if name in out {
      var i := CollectedFrom(wanted, sources, out, name);
    }
    FirstHolds(sources, name);
    assert Inputs.Lookup(out, name) == if IsAsset(wanted, name) then FirstOf(sources, name) else None;
  }
}
