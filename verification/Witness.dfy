/** The assumptions about hashing and git hold together: there is a world in which
    they do, and in it a history of releases with an inherited component. */
module Witness {
  import opened Text
  import opened Versions
  import opened Assemble
  import opened History
  import opened Promises
  import opened Unseen
  import Aliases
  import Holders
  import Inputs

  // ---- an unambiguous text for a list of texts ------------------------------------------

  function Ones(n: nat): string { if n == 0 then "" else "1" + Ones(n - 1) }

  /** Each text after its length. */
  function Packed(texts: seq<string>): string {
    if texts == [] then "" else Ones(|texts[0]|) + "0" + texts[0] + Packed(texts[1..])
  }

  lemma {:induction false} OnesAgree(m: nat, n: nat, x: string, y: string)
    requires Ones(m) + "0" + x == Ones(n) + "0" + y
    ensures m == n && x == y
  {
    var s, t := Ones(m) + "0" + x, Ones(n) + "0" + y;
    if m == 0 || n == 0 {
      assert s[0] == if m == 0 then '0' else '1';
      assert t[0] == if n == 0 then '0' else '1';
      assert s[1..] == t[1..];
      assert m == 0 ==> s[1..] == x;
      assert n == 0 ==> t[1..] == y;
    } else {
      assert s[1..] == Ones(m - 1) + "0" + x && t[1..] == Ones(n - 1) + "0" + y;
      OnesAgree(m - 1, n - 1, x, y);
    }
  }

  lemma {:induction false} PackedIsUnambiguous(a: seq<string>, b: seq<string>)
    requires Packed(a) == Packed(b)
    ensures a == b
  {
    if a == [] || b == [] {
    } else {
      assert Packed(a) == Ones(|a[0]|) + "0" + (a[0] + Packed(a[1..]));
      assert Packed(b) == Ones(|b[0]|) + "0" + (b[0] + Packed(b[1..]));
      OnesAgree(|a[0]|, |b[0]|, a[0] + Packed(a[1..]), b[0] + Packed(b[1..]));
      assert a[0] == (a[0] + Packed(a[1..]))[..|a[0]|] && b[0] == (b[0] + Packed(b[1..]))[..|b[0]|];
      assert Packed(a[1..]) == (a[0] + Packed(a[1..]))[|a[0]|..] && Packed(b[1..]) == (b[0] + Packed(b[1..]))[|b[0]|..];
      PackedIsUnambiguous(a[1..], b[1..]);
      assert a == [a[0]] + a[1..] && b == [b[0]] + b[1..];
    }
  }

  // ---- bodies and contract entries ---------------------------------------------------------

  function Pairs(keys: seq<string>, g: map<string, string>): seq<string>
    requires forall key | key in keys :: key in g
  {
    if keys == [] then [] else [keys[0], g[keys[0]]] + Pairs(keys[1..], g)
  }

  lemma {:induction false} PairsAgree(p: seq<string>, g: map<string, string>, q: seq<string>, k: map<string, string>)
    requires (forall key | key in p :: key in g) && (forall key | key in q :: key in k)
    requires Pairs(p, g) == Pairs(q, k)
    ensures p == q && forall key | key in p :: g[key] == k[key]
  {
    if p != [] && q != [] {
      var x, y := Pairs(p, g), Pairs(q, k);
      assert x[0] == y[0] && x[1] == y[1] && x[2..] == Pairs(p[1..], g) && y[2..] == Pairs(q[1..], k);
      PairsAgree(p[1..], g, q[1..], k);
      assert p == [p[0]] + p[1..] && q == [q[0]] + q[1..];
    }
  }

  ghost function Body(component: string, groups: map<string, string>): string {
    var keys := Sorted(groups.Keys);
    assert forall key | key in keys :: key in Elements(keys);
    Packed([component] + Pairs(keys, groups))
  }

  lemma BodyIsUnambiguous(c: string, g: map<string, string>, d: string, k: map<string, string>)
    requires Body(c, g) == Body(d, k)
    ensures c == d && g == k
  {
    var p, q := Sorted(g.Keys), Sorted(k.Keys);
    assert forall key | key in p :: key in Elements(p);
    assert forall key | key in q :: key in Elements(q);
    var x, y := [c] + Pairs(p, g), [d] + Pairs(q, k);
    PackedIsUnambiguous(x, y);
    assert x[0] == y[0] && x[1..] == Pairs(p, g) && y[1..] == Pairs(q, k);
    PairsAgree(p, g, q, k);
    assert g.Keys == Elements(p) == k.Keys;
    forall key | key in g ensures g[key] == k[key] {
      assert key in Elements(p);
    }
  }

  function SpecTexts(specs: seq<AssetSpec>): seq<string> {
    if specs == [] then [] else [specs[0].name, specs[0].role] + SpecTexts(specs[1..])
  }

  lemma {:induction false} SpecsAgree(a: seq<AssetSpec>, b: seq<AssetSpec>)
    requires SpecTexts(a) == SpecTexts(b)
    ensures a == b
  {
    if a != [] && b != [] {
      var x, y := SpecTexts(a), SpecTexts(b);
      assert x[0] == y[0] && x[1] == y[1] && x[2..] == SpecTexts(a[1..]) && y[2..] == SpecTexts(b[1..]);
      SpecsAgree(a[1..], b[1..]);
      assert a == [a[0]] + a[1..] && b == [b[0]] + b[1..];
    }
  }

  function KindTexts(kind: Kind): seq<string> {
    match kind
    case ServerImage => []
    case Player(family, architecture, specs) => [family, architecture] + SpecTexts(specs)
  }

  function Bit(b: bool): string { if b then "1" else "0" }

  function Canonical(c: Component): string {
    Packed([c.id, c.profile, Bit(Stable in c.required), Bit(Beta in c.required)] + KindTexts(c.kind))
  }

  lemma CanonicalIsUnambiguous(c: Component, d: Component)
    requires Canonical(c) == Canonical(d)
    ensures c == d
  {
    var x := [c.id, c.profile, Bit(Stable in c.required), Bit(Beta in c.required)] + KindTexts(c.kind);
    var y := [d.id, d.profile, Bit(Stable in d.required), Bit(Beta in d.required)] + KindTexts(d.kind);
    PackedIsUnambiguous(x, y);
    assert x[0] == y[0] && x[1] == y[1] && x[2] == y[2] && x[3] == y[3];
    assert KindTexts(c.kind) == x[4..] == y[4..] == KindTexts(d.kind);
    forall channel: Channel ensures channel in c.required <==> channel in d.required {
      assert channel == Stable || channel == Beta;
    }
    KindsAgree(c.kind, d.kind);
  }

  lemma KindsAgree(a: Kind, b: Kind)
    requires KindTexts(a) == KindTexts(b)
    ensures a == b
  {
    if a.Player? && b.Player? {
      var x, y := KindTexts(a), KindTexts(b);
      assert x[0] == y[0] && x[1] == y[1] && x[2..] == SpecTexts(a.assets) && y[2..] == SpecTexts(b.assets);
      SpecsAgree(a.assets, b.assets);
    }
  }

  // ---- the world ---------------------------------------------------------------------------------

  function Length(content: Content): nat {
    match content case Bytes(data) => |data| case Json(_) => 0
  }

  /** Tells the second build's files from all others. */
  function Digested(content: Content): string {
    (if content == Bytes("two") then "1" else "0") + seq(63, _ => '0')
  }

  function Itself(text: string): string { text }

  /** The second commit changes a file of the Windows player, and a later one takes
      the change back. */
  function TreeAt(commit: string): Inputs.Files {
    map["apps/player-windows/App.cs" := if commit == "second" then "100644:b" else "100644:a"]
  }

  ghost function ThisWorld(): World {
    World(Meter(Length, Digested), Inputs.Hashing(Itself, Body), TreeAt, Canonical)
  }

  lemma ThisWorldIsSane()
    ensures Sane(ThisWorld())
  {
    hide Body, Canonical;
    var w := ThisWorld();
    assert Inputs.CollisionFree(w.h) by {
      forall c, d, g, k | Body(c, g) == Body(d, k) ensures c == d && g == k {
        BodyIsUnambiguous(c, g, d, k);
      }
    }
    forall c, d | Canonical(c) == Canonical(d) ensures c == d {
      CanonicalIsUnambiguous(c, d);
    }
  }

  /** Every assumption of `Sane` holds at once, over a history of four releases: two
      build the Windows player from different commits and of different bytes, and the
      last carries the first one's forward. The theorems about histories speak of
      something. */
  lemma HistoriesExist() returns (w: World, h: seq<Past>)
    ensures Sane(w) && Valid(w, h) && |h| == 4 && WINDOWS in CONTRACT.components && WINDOWS.kind.Player?
    ensures h[0].run.contract == h[1].run.contract == h[3].run.contract == CONTRACT
    ensures BuildsWindows(h[0]) && BuildsWindows(h[1]) && !Holds(h[2], "windows-x86_64")
    ensures Holds(h[3], "windows-x86_64") && EntryAt(h[3], "windows-x86_64").origin.Inherited?
    ensures CodeAt(h[3], "windows-x86_64") < CodeAt(h[1], "windows-x86_64")
    ensures h[0].version.code < h[1].version.code < h[2].version.code < h[3].version.code
    ensures UpdateDigest(h[0]) != UpdateDigest(h[1])
    ensures InputsOf(w, h[0].run, WINDOWS) != InputsOf(w, h[1].run, WINDOWS)
  {
    hide Valid, Body, Canonical, EntryAt, BuildsWindows, CodeAt, Holds, NothingNewerBetween, FilesOf, UpdateDigest,
      InputsOf;
    w := ThisWorld();
    ThisWorldIsSane();
    h := NewerBuildIsPassedOver(w);
    UpdateIs(w, h, 0, "one");
    UpdateIs(w, h, 1, "two");
    DigestsDiffer();
    InputsChanged(h[0].run, h[1].run);
  }

  lemma DigestsDiffer()
    ensures Digested(Bytes("one")) != Digested(Bytes("two"))
  {
    assert "one"[0] != "two"[0];
    assert Digested(Bytes("one"))[0] == '0' && Digested(Bytes("two"))[0] == '1';
  }

  /** What a release records of the update manifest, whose name is the same in each. */
  function UpdateDigest(p: Past): string {
    var entry := EntryAt(p, "windows-x86_64");
    if entry.Available? && entry.payload.Assets?
      && |entry.payload.assets| > 1 then entry.payload.assets[1].sha256 else ""
  }

  lemma UpdateIs(w: World, h: seq<Past>, i: nat, build: string)
    requires Valid(w, h) && i < |h| && h[i].run.contract == CONTRACT && BuildsWindows(h[i])
    requires h[i].run.assets == FilesOf(h[i].run.version, build)
    ensures UpdateDigest(h[i]) == w.m.sha256(Bytes(build))
  {
    hide Valid, Publishes, EntryAt, Expand, InputsOf;
    PrefixValid(w, h, i);
    Tags(w, h[..i]);
    assert WINDOWS in CONTRACT.components;
    BuiltIsOwn(w, h[..i], h[i], WINDOWS);
    PublishedNames(w, h[..i], h[i], WINDOWS);
    var names := NamesOf(SPECS, h[i].run.version);
    assert names[1] in names;
  }

  lemma InputsChanged(a: Run, b: Run)
    requires a.commit == "first" && b.commit == "second" && a.rules == b.rules == Everything
    ensures InputsOf(ThisWorld(), a, WINDOWS) != InputsOf(ThisWorld(), b, WINDOWS)
  {
    hide Body, Canonical, Inputs.FingerprintOf;
    var w := ThisWorld();
    ThisWorldIsSane();
    var x, y := Inputs.Counted(a.rules("windows"), TreeAt("first")), Inputs.Counted(b.rules("windows"),
      TreeAt("second"));
    assert x["apps/player-windows/App.cs"] != y["apps/player-windows/App.cs"];
    Inputs.DigestIsIdentity(w.h, w.canonical(WINDOWS), x, w.canonical(WINDOWS), y);
  }

  /** `beta` going back: the third release is never promoted, so `beta` moves from the
      second straight to the fourth, which carries an older Windows player. */
  lemma BetaGoesBack() returns (w: World, h: seq<Past>, before: seq<Aliases.Event>, after: seq<Aliases.Event>)
    ensures Sane(w) && Valid(w, h) && |h| == 4 && Holders.Tells(before + after, h)
    ensures Aliases.Run(Aliases.EMPTY, before).beta == Some(h[1].version)
    ensures Aliases.Run(Aliases.EMPTY, before + after).beta == Some(h[3].version)
    ensures Holds(h[1], "windows-x86_64") && Holds(h[3], "windows-x86_64")
    ensures CodeAt(h[3], "windows-x86_64") < CodeAt(h[1], "windows-x86_64")
  {
    hide Valid, Aliases.Run, EntryAt, CodeAt, UpdateDigest, InputsOf;
    w, h := HistoriesExist();
    Holders.BetaSkipsTheThird(w, h);
    var events := Holders.ThirdNotPromoted(h);
    before, after := events.0, events.1;
  }
}
