/** What the release history promises of its channels and of its checks: nothing
    behind an alias goes backwards, an older build is carried past a newer one only
    where the nearest release cannot tell, and every release that is assembled is
    accepted when it is read back. */
module Promises {
  import opened Text
  import opened Versions
  import opened Assemble
  import opened Recheck
  import opened Reuse
  import opened History
  import Inputs
  import Plan
  import Build

  // ---- what a component is at, release by release ------------------------------------------

  predicate Holds(p: Past, id: string) { EntryAt(p, id).Available? }

  function CodeAt(p: Past, id: string): int
    requires Holds(p, id)
  {
    EntryCode(EntryAt(p, id))
  }

  lemma CodeBound(w: World, h: seq<Past>, i: nat, id: string)
    requires Sane(w) && Valid(w, h) && i < |h| && Holds(h[i], id)
    ensures CodeAt(h[i], id) <= h[i].version.code
    ensures EntryAt(h[i], id).versionCode == Some(CodeAt(h[i], id))
  {
    hide Publishes, Valid, ParseVersion;
    PrefixValid(w, h, i);
    Tags(w, h[..i]);
    var c := ComponentOf(w, h[..i], h[i], id);
    NothingIsDowngraded(w, h, i, c);
  }

  /** A component a release holds was built for it, or is what the release it
      follows holds, no older than what the nearest release holds. */
  lemma BuiltOrFollowed(w: World, h: seq<Past>, i: nat, id: string) returns (k: nat)
    requires Sane(w) && Valid(w, h) && i < |h| && Holds(h[i], id)
    ensures EntryAt(h[i], id).origin.Built? ==> CodeAt(h[i], id) == h[i].version.code
    ensures EntryAt(h[i], id).origin.Inherited? ==>
      && k < i && h[i].previous == Some(h[k].version) && Holds(h[k], id) && CodeAt(h[k], id) == CodeAt(h[i], id)
      && (forall n | 0 <= n < i && h[i].nearest == Some(h[n].version) && Holds(h[n], id) ::
        CodeAt(h[n], id) <= CodeAt(h[i], id))
  {
    hide Publishes, Valid, ParseVersion, BuiltHere, SuppliedBy, InputsOf, Inv, ContextOf, Candidate;
    k := 0;
    var g, p := h[..i], h[i];
    PrefixValid(w, h, i);
    Tags(w, g);
    ValidKeepsInv(w, g);
    var c := ComponentOf(w, g, p, id);
    CodeBound(w, h, i, id);
    if EntryAt(p, id).origin.Built? {
      BuiltIsOwn(w, g, p, c);
      BuiltCode(w, p, c);
    } else {
      var j;
      k, j := Supplied(w, g, p, c);
      assert g[k] == h[k];
      Ordered(w, g, p);
      Named(w, g, k, p.previous.value);
      CodeBound(w, h, k, id);
      forall n | 0 <= n < i && p.nearest == Some(h[n].version) && Holds(h[n], id)
        ensures CodeAt(h[n], id) <= CodeAt(p, id)
      {
        NotOvertaken(w, g, p, c, k, n);
      }
    }
  }

  lemma NotOvertaken(w: World, h: seq<Past>, p: Past, c: Component, k: nat, n: nat)
    requires Sane(w) && Valid(w, h) && DistinctTags(h) && Inv(w, h) && Publishes(w, h, p)
    requires c in p.run.contract.components
    requires Holds(p, c.id) && EntryAt(p, c.id).origin.Inherited?
    requires k < |h| && h[k].Tag() == TagOf(p.previous) && Holds(h[k], c.id) && CodeAt(h[k], c.id) == CodeAt(p, c.id)
    requires n < |h| && p.nearest == Some(h[n].version) && Holds(h[n], c.id)
    ensures CodeAt(h[n], c.id) <= CodeAt(p, c.id)
  {
    hide Publishes, Valid, Inv, Candidate, PlanContext, DecisionsOf, CurrentOf, ShelfOf, EntryCode, LoadRelease;
    var b := Baseline(w, h, p, c);
    assert b == k;
    PrefixValid(w, h, n);
    Tags(w, h[..n]);
    Ordered(w, h[..n], h[n]);
    assert h[n].Tag() == TagOf(p.nearest);
    ReadContext(w.m, p.run.o, ShelfOf(h), p.run.contract, p.Channel(), CurrentOf(w, p.run, p.run.contract.components),
                p.run.pending, p.run.reuse, TagOf(p.previous), TagOf(p.nearest));
    if n != k {
      var l := Loaded(w, h, p.run.o, TagOf(p.nearest));
      assert l == n;
    }
  }

  // ---- the order of the history ---------------------------------------------------------------

  /** What the plan guaranteed when a release was published. */
  lemma PublishedInOrder(w: World, h: seq<Past>, i: nat)
    requires Valid(w, h) && i < |h|
    ensures h[i].version.channel == Some(Stable) || h[i].version.channel == Some(Beta)
    ensures forall q | 0 <= q < i && (h[i].version.channel == Some(Beta) || h[q].version.channel == Some(Stable)) ::
      h[q].version.code < h[i].version.code
    ensures Plan.IsNewest(Plan.Earlier(VersionsOf(h[..i]), h[i].version), Plan.Followed(h[i].version), h[i].previous)
    ensures Plan.IsNewest(Plan.Earlier(VersionsOf(h[..i]), h[i].version), None, h[i].nearest)
    ensures forall q | 0 <= q < i :: h[q].version in VersionsOf(h[..i])
  {
    hide Publishes, Valid, Plan.FromTag;
    PrefixValid(w, h, i);
    Tags(w, h[..i]);
    Ordered(w, h[..i], h[i]);
    Plan.CodeSlot(h[i].version);
    forall q | 0 <= q < i ensures h[q].version in VersionsOf(h[..i]) {
      assert h[..i][q] == h[q];
    }
  }

  lemma VersionsCoordinated(w: World, h: seq<Past>)
    requires Valid(w, h)
    ensures Plan.Coordinated(VersionsOf(h))
  {
    hide Publishes, Valid, Plan.FromTag;
    forall v | v in VersionsOf(h) ensures Plan.FromTag(v) {
      var q :| 0 <= q < |h| && h[q].version == v;
      PrefixValid(w, h, q);
      Tags(w, h[..q]);
      Ordered(w, h[..q], h[q]);
    }
  }

  lemma {:induction false} VersionsDistinct(w: World, h: seq<Past>)
    requires Valid(w, h)
    ensures Plan.DistinctCodes(VersionsOf(h))
    decreases |h|
  {
    hide Publishes, VersionsOf, Plan.FromTag, Plan.Coordinated, Plan.DistinctCodes, Plan.MayPublish, Plan.IsNewest;
    NoVersions();
    if h == [] {
      assert h == [];
      assert Plan.DistinctCodes({}) by { NoCodes(); }
    } else {
      var front, i := h[..|h| - 1], |h| - 1;
      VersionsDistinct(w, front);
      VersionsCoordinated(w, front);
      assert h[..i] == front && h == front + [h[i]];
      Ordered(w, front, h[i]);
      Plan.PublishingKeepsCodesDistinct(VersionsOf(front), h[i].version);
      OneMoreVersion(front, h[i]);
    }
  }

  lemma OneMoreVersion(h: seq<Past>, p: Past)
    ensures VersionsOf(h + [p]) == VersionsOf(h) + {p.version}
  {
    assert (h + [p])[|h|] == p;
    forall q | q in h ensures q in h + [p] {}
  }

  lemma NoVersions()
    ensures VersionsOf([]) == {}
  {
  }

  lemma NoCodes()
    ensures Plan.DistinctCodes({})
  {
  }

  lemma CodesDistinct(w: World, h: seq<Past>)
    requires Valid(w, h)
    ensures forall a, b | 0 <= a < |h| && 0 <= b < |h| && h[a].version.code == h[b].version.code :: a == b
  {
    hide Publishes, Valid;
    VersionsDistinct(w, h);
    Tags(w, h);
    forall a, b | 0 <= a < |h| && 0 <= b < |h| && h[a].version.code == h[b].version.code ensures a == b {
      assert h[a].version in VersionsOf(h) && h[b].version in VersionsOf(h);
      NamedByVersion(w, h, a);
      NamedByVersion(w, h, b);
    }
  }

  lemma NamedByVersion(w: World, h: seq<Past>, a: nat)
    requires Valid(w, h) && a < |h|
    ensures h[a].Tag() == "v" + h[a].version.name
  {
    hide Publishes;
    PrefixValid(w, h, a);
    Ordered(w, h[..a], h[a]);
  }

  /** The release followed, or the nearest, is the one with the highest code. */
  lemma IsThatRelease(w: World, h: seq<Past>, i: nat, channel: Option<Channel>, found: Option<Version>, q: nat)
    requires Valid(w, h) && i < |h| && q < i
    requires Plan.IsNewest(Plan.Earlier(VersionsOf(h[..i]), h[i].version), channel, found)
    requires h[q].version.code < h[i].version.code && Plan.Tracks(channel, h[q].version)
    requires forall r | 0 <= r < i && Plan.Tracks(channel, h[r].version) && h[r].version.code < h[i].version.code ::
      h[r].version.code <= h[q].version.code
    ensures found == Some(h[q].version)
  {
    hide Valid;
    CodesDistinct(w, h);
    assert h[..i][q] == h[q] && h[q].version in Plan.Earlier(VersionsOf(h[..i]), h[i].version);
    var newest := found.value;
    var r :| 0 <= r < |h[..i]| && h[..i][r].version == newest;
    assert h[r].version == newest;
  }

  // ---- components move forward ---------------------------------------------------------------

  /** Between any two Stables of a history that hold a component, it moves forward,
      whatever was published, promoted or missing between them. */
  lemma {:induction false} StablesMoveForward(w: World, h: seq<Past>, a: nat, z: nat, id: string)
    requires Sane(w) && Valid(w, h) && a < |h| && z < |h| && Holds(h[a], id) && Holds(h[z], id)
    requires h[a].version.channel == h[z].version.channel == Some(Stable)
    requires h[a].version.code < h[z].version.code
    ensures CodeAt(h[a], id) <= CodeAt(h[z], id)
    decreases z
  {
    hide Valid, EntryCode, EntryAt;
    PublishedInOrder(w, h, a);
    PublishedInOrder(w, h, z);
    CodeBound(w, h, a, id);
    var k := BuiltOrFollowed(w, h, z, id);
    if EntryAt(h[z], id).origin.Inherited? {
      CodesDistinct(w, h);
      assert h[a].version in Plan.Earlier(VersionsOf(h[..z]), h[z].version);
      assert h[a].version.code <= h[k].version.code;
      if k != a {
        StablesMoveForward(w, h, a, k, id);
      }
    }
  }

  /** From one newest release to the next newest, of either kind, no component both
      hold goes to an older build, even where the next is a Stable that follows an
      older Stable. */
  lemma NewestNeverGoesBack(w: World, h: seq<Past>, q: nat, i: nat, id: string)
    requires Sane(w) && Valid(w, h) && q < i < |h| && Holds(h[q], id) && Holds(h[i], id)
    requires Plan.Owns(VersionsOf(h[..i]), None, h[q].version)
    requires Plan.Owns(VersionsOf(h[..i + 1]), None, h[i].version)
    ensures CodeAt(h[q], id) <= CodeAt(h[i], id)
  {
    hide Valid, CodeAt, Holds;
    PublishedInOrder(w, h, i);
    CodesDistinct(w, h);
    assert h[..i + 1][q] == h[q] && h[q].version in VersionsOf(h[..i + 1]);
    IsThatRelease(w, h, i, None, h[i].nearest, q);
    MovesForward(w, h, q, i, id);
  }

  lemma MovesForward(w: World, h: seq<Past>, q: nat, i: nat, id: string)
    requires Sane(w) && Valid(w, h) && q < i < |h| && Holds(h[q], id) && Holds(h[i], id)
    requires h[q].version.code < h[i].version.code
    requires h[i].previous == Some(h[q].version) || h[i].nearest == Some(h[q].version)
    ensures CodeAt(h[q], id) <= CodeAt(h[i], id)
  {
    hide Valid, EntryCode, EntryAt;
    CodesDistinct(w, h);
    CodeBound(w, h, q, id);
    var k := BuiltOrFollowed(w, h, i, id);
  }

  /** Between two Betas above every published Stable a component only moves
      forward, even across Betas that lack it: one that lacks it is followed by a
      build. */
  lemma {:induction false} BetasMoveForward(w: World, h: seq<Past>, n: nat, floor: int, a: nat, z: nat, id: string)
    requires Sane(w) && Valid(w, h) && n <= |h| && a < n && z < n && Holds(h[a], id) && Holds(h[z], id)
    requires forall s | 0 <= s < n && h[s].version.channel == Some(Stable) :: h[s].version.code <= floor
    requires floor < h[a].version.code < h[z].version.code
    ensures CodeAt(h[a], id) <= CodeAt(h[z], id)
    decreases z
  {
    hide Valid, EntryCode, EntryAt;
    PublishedInOrder(w, h, a);
    PublishedInOrder(w, h, z);
    CodeBound(w, h, a, id);
    var k := BuiltOrFollowed(w, h, z, id);
    if EntryAt(h[z], id).origin.Inherited? {
      CodesDistinct(w, h);
      assert h[a].version in Plan.Earlier(VersionsOf(h[..z]), h[z].version);
      assert h[a].version.code <= h[k].version.code;
      if k != a {
        BetasMoveForward(w, h, n, floor, a, k, id);
      }
    }
  }

  // ---- from a newest release to any later one ----------------------------------------------------

  /** A release was the newest of either kind when it was published. */
  ghost predicate NewestThen(h: seq<Past>, a: nat)
    requires a < |h|
  {
    forall q | 0 <= q < a :: h[q].version.code < h[a].version.code
  }

  /** What one release holds of a component is what an earlier one holds, followed
      from each release to the one it inherits from. */
  ghost predicate CarriedOn(h: seq<Past>, z: nat, m: nat, id: string)
    requires z < |h|
    decreases z
  {
    Holds(h[z], id) && (z == m || (EntryAt(h[z], id).origin.Inherited?
      && exists k | 0 <= k < z :: h[z].previous == Some(h[k].version) && CarriedOn(h, k, m, id)))
  }

  predicate BuiltAt(p: Past, id: string) { Holds(p, id) && EntryAt(p, id).origin.Built? }

  /** A release carries a component forward past a build of it: one release follows
      another from below `a`, although something since, up to `a`, built it. */
  ghost predicate PassesOver(h: seq<Past>, m: nat, k: nat, r: nat, a: nat, id: string)
    requires m < |h| && k < m && r < m && a < |h|
  {
    && Holds(h[m], id) && EntryAt(h[m], id).origin.Inherited? && h[m].previous == Some(h[k].version)
    && h[k].version.code < h[r].version.code <= h[a].version.code < h[m].version.code
    && BuiltAt(h[r], id)
  }

  ghost predicate GoesBack(h: seq<Past>, a: nat, z: nat, id: string)
    requires a < |h| && z < |h|
  {
    exists m, k, r | 0 <= m <= z && 0 <= k < m && 0 <= r < m :: CarriedOn(h, z, m, id) && PassesOver(h, m, k, r, a, id)
  }

  lemma PublishedAfter(h: seq<Past>, a: nat, z: nat)
    requires a < |h| && z < |h| && NewestThen(h, a) && h[a].version.code < h[z].version.code
    ensures a < z
  {
  }

  /** Where a component went back, some release on the way inherited it from below. */
  lemma {:induction false} Crossing(w: World, h: seq<Past>, a: nat, z: nat, id: string) returns (m: nat, k: nat)
    requires Sane(w) && Valid(w, h) && a < |h| && z < |h| && Holds(h[a], id) && Holds(h[z], id)
    requires h[a].version.code < h[z].version.code && CodeAt(h[z], id) < CodeAt(h[a], id)
    ensures k < m <= z && CarriedOn(h, z, m, id) && Holds(h[m], id) && EntryAt(h[m], id).origin.Inherited?
    ensures h[m].previous == Some(h[k].version) && Holds(h[k], id) && CodeAt(h[k], id) == CodeAt(h[z], id)
    ensures h[k].version.code < h[a].version.code < h[m].version.code
    decreases z
  {
    hide Valid, EntryCode, EntryAt;
    CodesDistinct(w, h);
    CodeBound(w, h, a, id);
    k := BuiltOrFollowed(w, h, z, id);
    if h[k].version.code < h[a].version.code {
      m := z;
    } else {
      m, k := Crossing(w, h, a, k, id);
    }
  }

  lemma {:induction false} CarriedKeepsCode(w: World, h: seq<Past>, z: nat, m: nat, id: string)
    requires Sane(w) && Valid(w, h) && z < |h| && CarriedOn(h, z, m, id)
    ensures m <= z && Holds(h[m], id) && CodeAt(h[m], id) == CodeAt(h[z], id)
    decreases z
  {
    hide Valid, EntryCode, EntryAt;
    CodesDistinct(w, h);
    if z != m {
      var k := BuiltOrFollowed(w, h, z, id);
      var l :| 0 <= l < z && h[z].previous == Some(h[l].version) && CarriedOn(h, l, m, id);
      assert h[l].version == h[k].version;
      CarriedKeepsCode(w, h, l, m, id);
    }
  }

  /** A release that follows another past a newer Beta is Stable, as is the one it
      follows; no Stable lies between them. */
  lemma CrossesABeta(w: World, h: seq<Past>, m: nat, k: nat, a: nat)
    requires Sane(w) && Valid(w, h) && m < |h| && k < m && a < |h| && h[m].previous == Some(h[k].version)
    requires NewestThen(h, a) && h[k].version.code < h[a].version.code < h[m].version.code
    ensures a < m && h[m].version.channel == h[k].version.channel == Some(Stable) && h[a].version.channel == Some(Beta)
    ensures forall s | 0 <= s < m && h[s].version.channel == Some(Stable) :: h[s].version.code <= h[k].version.code
  {
    hide Valid;
    PublishedAfter(h, a, m);
    PublishedInOrder(w, h, m);
    PublishedInOrder(w, h, a);
    var earlier := Plan.Earlier(VersionsOf(h[..m]), h[m].version);
    assert h[a].version in earlier;
    forall s | 0 <= s < m && h[s].version.channel == Some(Stable) ensures h[s].version.code <= h[k].version.code {
      assert h[s].version in earlier;
    }
  }

  /** Then it goes back exactly when something since the release followed built the
      component. */
  lemma CrossingGoesBack(w: World, h: seq<Past>, m: nat, k: nat, a: nat, id: string)
    requires Sane(w) && Valid(w, h) && m < |h| && k < m && a < |h| && h[m].previous == Some(h[k].version)
    requires Holds(h[k], id) && Holds(h[a], id)
    requires NewestThen(h, a) && h[k].version.code < h[a].version.code < h[m].version.code
    ensures CodeAt(h[a], id) <= CodeAt(h[k], id) <==>
      !exists r | 0 <= r < m :: BuiltAt(h[r], id) && h[k].version.code < h[r].version.code <= h[a].version.code
  {
    hide Valid, EntryCode, EntryAt, NewestThen;
    CrossesABeta(w, h, m, k, a);
    CodeBound(w, h, k, id);
    CodesDistinct(w, h);
    if r :| 0 <= r < m && BuiltAt(h[r], id) && h[k].version.code < h[r].version.code <= h[a].version.code {
      var b := BuiltOrFollowed(w, h, r, id);
      if r != a {
        BetasMoveForward(w, h, m, h[k].version.code, r, a, id);
      }
    } else {
      Unbuilt(w, h, m, k, a, id);
    }
  }

  /** A Beta nobody built since the Stable below it holds nothing newer. */
  lemma {:induction false} Unbuilt(w: World, h: seq<Past>, m: nat, k: nat, a: nat, id: string)
    requires Sane(w) && Valid(w, h) && m < |h| && k < m && a < |h| && h[m].previous == Some(h[k].version)
    requires Holds(h[k], id) && Holds(h[a], id)
    requires NewestThen(h, a) && h[k].version.code < h[a].version.code < h[m].version.code
    requires forall r | 0 <= r < m && BuiltAt(h[r], id) && h[k].version.code < h[r].version.code ::
      h[a].version.code < h[r].version.code
    ensures CodeAt(h[a], id) <= CodeAt(h[k], id)
    decreases a
  {
    hide Valid, EntryCode, EntryAt;
    CrossesABeta(w, h, m, k, a);
    CodesDistinct(w, h);
    PublishedInOrder(w, h, a);
    var p := BuiltOrFollowed(w, h, a, id);
    assert !BuiltAt(h[a], id);
    forall q | 0 <= q < a ensures h[q].version.code <= h[p].version.code {
      assert h[q].version in Plan.Earlier(VersionsOf(h[..a]), h[a].version);
    }
    assert NewestThen(h, p);
    if h[p].version.code > h[k].version.code {
      Unbuilt(w, h, m, k, p, id);
    } else if p != k {
      PublishedInOrder(w, h, p);
      if h[p].version.channel == Some(Stable) {
        StablesMoveForward(w, h, p, k, id);
      } else {
        forall s | 0 <= s < |h| && h[p].version.code < h[s].version.code <= h[k].version.code
          ensures h[s].version.channel == Some(Stable)
        {
          PublishedInOrder(w, h, s);
        }
        StablesSeeIt(w, h, p, k, id);
      }
    }
  }

  /** Stables published right above a Beta see it as their nearest release. */
  lemma {:induction false} StablesSeeIt(w: World, h: seq<Past>, p: nat, k: nat, id: string)
    requires Sane(w) && Valid(w, h) && p < |h| && k < |h| && Holds(h[p], id) && Holds(h[k], id)
    requires NewestThen(h, p) && h[p].version.channel == Some(Beta) && h[p].version.code < h[k].version.code
    requires forall s | 0 <= s < |h| && h[p].version.code < h[s].version.code <= h[k].version.code ::
      h[s].version.channel == Some(Stable)
    ensures CodeAt(h[p], id) <= CodeAt(h[k], id)
    decreases k
  {
    hide Valid, EntryCode, EntryAt;
    PublishedAfter(h, p, k);
    CodesDistinct(w, h);
    PublishedInOrder(w, h, k);
    CodeBound(w, h, p, id);
    var q := BuiltOrFollowed(w, h, k, id);
    if EntryAt(h[k], id).origin.Inherited? {
      if h[p].version.code < h[q].version.code {
        StablesSeeIt(w, h, p, q, id);
      } else {
        forall r | 0 <= r < k && Plan.Tracks(None, h[r].version) && h[r].version.code < h[k].version.code
          ensures h[r].version.code <= h[p].version.code
        {
          assert h[r].version in Plan.Earlier(VersionsOf(h[..k]), h[k].version);
        }
        IsThatRelease(w, h, k, None, h[k].nearest, p);
      }
    }
  }

  /** From a release that was the newest when it was published to any later one above
      it, a component goes back exactly when some release on the way carried it
      forward past a build of it. */
  lemma GoesBackExactly(w: World, h: seq<Past>, a: nat, z: nat, id: string)
    requires Sane(w) && Valid(w, h) && a < |h| && z < |h| && Holds(h[a], id) && Holds(h[z], id)
    requires NewestThen(h, a) && h[a].version.code < h[z].version.code
    ensures CodeAt(h[z], id) < CodeAt(h[a], id) <==> GoesBack(h, a, z, id)
  {
    hide Valid, EntryCode, EntryAt, NewestThen, CarriedOn;
    if CodeAt(h[z], id) < CodeAt(h[a], id) {
      var m, k := Crossing(w, h, a, z, id);
      CrossingGoesBack(w, h, m, k, a, id);
      var r :| 0 <= r < m && BuiltAt(h[r], id) && h[k].version.code < h[r].version.code <= h[a].version.code;
      assert PassesOver(h, m, k, r, a, id);
    }
    if GoesBack(h, a, z, id) {
      var m, k, r :| 0 <= m <= z && 0 <= k < m && 0 <= r < m && CarriedOn(h, z, m, id) && PassesOver(h, m, k, r, a, id);
      CarriedKeepsCode(w, h, z, m, id);
      var b := BuiltOrFollowed(w, h, m, id);
      CodesDistinct(w, h);
      assert h[b].version == h[k].version;
      CrossingGoesBack(w, h, m, k, a, id);
    }
  }

  // ---- what is not compared --------------------------------------------------------------------------

  /** The documented rule: no published release between the baseline and this one
      holds a newer build of the inherited component. */
  ghost predicate NothingNewerBetween(h: seq<Past>, i: nat, k: nat, id: string)
    requires i < |h| && k < |h| && Holds(h[i], id)
  {
    forall r | 0 <= r < i && Holds(h[r], id) && h[k].version.code < h[r].version.code < h[i].version.code ::
      CodeAt(h[r], id) <= CodeAt(h[i], id)
  }

  /** The rule holds exactly when the newest earlier release that holds the
      component is no newer, so the comparison is enough wherever the nearest
      release holds it; where it does not, nothing is compared. */
  lemma RuleNeedsTheNewestHolder(w: World, h: seq<Past>, i: nat, k: nat, l: nat, id: string)
    requires Sane(w) && Valid(w, h) && k < i < |h| && l < i
    requires Holds(h[i], id) && EntryAt(h[i], id).origin.Inherited? && h[i].previous == Some(h[k].version)
    requires Holds(h[l], id) && h[l].version.code < h[i].version.code
    requires forall r | 0 <= r < i && Holds(h[r], id) && h[r].version.code < h[i].version.code ::
      h[r].version.code <= h[l].version.code
    ensures NothingNewerBetween(h, i, k, id) <==> CodeAt(h[l], id) <= CodeAt(h[i], id)
    ensures h[i].nearest == Some(h[l].version) ==> NothingNewerBetween(h, i, k, id)
  {
    hide Valid, EntryCode, EntryAt;
    CodesDistinct(w, h);
    PublishedInOrder(w, h, i);
    var b := BuiltOrFollowed(w, h, i, id);
    assert b == k;
    assert h[k].version in Plan.Earlier(VersionsOf(h[..i]), h[i].version);
    if CodeAt(h[l], id) <= CodeAt(h[i], id) {
      forall r | 0 <= r < i && Holds(h[r], id) && h[k].version.code < h[r].version.code < h[i].version.code
        ensures CodeAt(h[r], id) <= CodeAt(h[i], id)
      {
        BetweenIsBelowNewest(w, h, i, k, l, r, id);
      }
    }
  }

  lemma BetweenIsBelowNewest(w: World, h: seq<Past>, i: nat, k: nat, l: nat, r: nat, id: string)
    requires Sane(w) && Valid(w, h) && k < i < |h| && l < i && r < i && h[i].previous == Some(h[k].version)
    requires Holds(h[l], id) && Holds(h[r], id)
    requires h[k].version.code < h[r].version.code <= h[l].version.code < h[i].version.code
    ensures CodeAt(h[r], id) <= CodeAt(h[l], id)
  {
    hide Valid, EntryCode, EntryAt;
    CodesDistinct(w, h);
    PublishedInOrder(w, h, i);
    forall s | 0 <= s < i && h[s].version.channel == Some(Stable) ensures h[s].version.code <= h[k].version.code {
      assert h[s].version in Plan.Earlier(VersionsOf(h[..i]), h[i].version);
    }
    if r != l {
      BetasMoveForward(w, h, i, h[k].version.code, r, l, id);
    }
  }

  // ---- what is decided can be assembled, and what is assembled is accepted -----------------------------

  /** A run that follows a history: its tag is new and parsed, the release it follows
      is the newest of its kind below it, and its contract is well formed. Nothing is
      said of whether it is ever assembled. */
  ghost predicate Follows(w: World, h: seq<Past>, p: Past) {
    && DistinctTags(h) && ParseTag(p.Tag()) == Some(p.version)
    && (forall q | q in h :: q.Tag() != p.Tag())
    && Plan.IsNewest(Plan.Earlier(VersionsOf(h), p.version), Plan.Followed(p.version), p.previous)
    && WellFormed(p.run.contract, p.run.version)
  }

  ghost function DecisionIn(w: World, h: seq<Past>, p: Past, c: Component): Decision
    requires DistinctTags(h)
  {
    DecideOne(w.m, p.run.o, ShelfOf(h), ContextOf(w, h, p), c)
  }

  /** Whatever a run decides to carry forward is trustworthy in its release. */
  lemma DecidedIsTrusted(w: World, h: seq<Past>, p: Past, c: Component)
    requires Sane(w) && Valid(w, h) && Follows(w, h, p) && c in p.run.contract.components
    requires DecisionIn(w, h, p, c).ToInherit?
    ensures Build.TrustedDecision(DecisionIn(w, h, p, c), c.kind.Player?, p.Tag(), p.version.code, p.Channel())
  {
    hide Publishes, Valid, Inv, DecideOne, ShelfOf, EntryAt, BuiltHere, InputsOf, Candidate, Facts, ContextOf, ParseTag;
    ValidKeepsInv(w, h);
    InheritedDecision(w.m, p.run.o, ShelfOf(h), ContextOf(w, h, p), c);
    var k := CandidateFrom(w, h, p, c);
    var e := EntryAt(h[k], c.id);
    var j := Builder(w, h, k, c, p.run);
    BuiltCode(w, h[j], c);
    FactsAreBuilt(w, h, p.run.o, ContextOf(w, h, p), c, e, j);
    Named(w, h, k, p.previous.value);
    CodeBound(w, h, k, c.id);
    PrefixValid(w, h, j);
    Tags(w, h[..j]);
    OwnInventory(w, h[..j], h[j]);
    BuiltPayload(w, h[..j], h[j], c);
    CarrySays(ContextOf(w, h, p), e, Facts(w.m, p.run.o, ShelfOf(h), ContextOf(w, h, p), c, e));
    assert HexDigest(w.m.sha256(Json(h[j].inventory)));
    Followed(w, h, p, k);
  }

  lemma CarrySays(ctx: Context, e: Entry, facts: Result<Payload, Refusal>)
    requires ctx.baseline.Some? && e.Available? && EntryChannel(e).Some? && e.inputs.Some? && facts.Ok?
    ensures var d, origin := Carry(ctx, e, facts), OriginOf(ctx.baseline.value, e);
      && d.ToInherit? && d.versionCode == EntryCode(e) && Some(d.channel) == EntryChannel(e)
      && d.source == Source(origin.tag, origin.commit, origin.inventorySha256, ctx.contract.releases + origin.tag)
      && d.inputs == e.inputs.value && d.payload == facts.value
  {
  }

  lemma Followed(w: World, h: seq<Past>, p: Past, k: nat)
    requires Follows(w, h, p) && k < |h| && p.previous == Some(h[k].version)
    ensures h[k].version.code < p.version.code && p.version.channel.Some?
  {
    hide ParseTag;
    assert h[k].version in Plan.Earlier(VersionsOf(h), p.version);
  }

  /** What a published release carries, it decided to carry. */
  lemma CarriedIsTrusted(w: World, h: seq<Past>, p: Past, c: Component)
    requires Sane(w) && Valid(w, h) && DistinctTags(h) && Publishes(w, h, p) && c in p.run.contract.components
    requires Carried(JobOf(w, h, p).plan, c.id)
    ensures Build.TrustedDecision(JobOf(w, h, p).plan.decisions[c.id], c.kind.Player?, p.Tag(), p.version.code,
      p.Channel())
  {
    hide Publishes, Valid, DecideOne, ShelfOf, Status, EntryAt, ContextOf, Build.TrustedDecision;
    EntryStatus(w, h, p, c);
    PublishedFollows(w, h, p);
    DecidedIsTrusted(w, h, p, c);
  }

  lemma PublishedFollows(w: World, h: seq<Past>, p: Past)
    requires DistinctTags(h) && Publishes(w, h, p)
    ensures Follows(w, h, p)
  {
    hide Assembled, WellFormed, ParseTag, JobOf;
  }

  /** The assets and inputs a builder records are complete. */
  lemma BuiltPayload(w: World, h: seq<Past>, p: Past, c: Component)
    requires Sane(w) && DistinctTags(h) && Publishes(w, h, p) && c in p.run.contract.components
    requires EntryAt(p, c.id).Available? && BuiltHere(w, p, c, EntryAt(p, c.id))
    ensures EntryAt(p, c.id).inputs.Some? && StartsWith(EntryAt(p, c.id).inputs.value.digest, "sha256:")
    ensures EntryAt(p, c.id).payload.Assets? ==>
      var assets := EntryAt(p, c.id).payload.assets;
      assets != [] && forall a | a in assets :: a.sha256 != "" && a.name != ""
  {
    hide Publishes;
    WellFormedContract(w, h, p);
    if c.kind.Player? {
      var specs, version := c.kind.assets, p.run.version;
      forall a | a in Measure(w.m, p.files, specs, version) ensures a.sha256 != "" && a.name != "" {
        var i :| 0 <= i < |specs| && a == Measure(w.m, p.files, specs, version)[i];
        Build.AssetName(p.run.contract, version, c, NamesOf(specs, version)[i]);
        assert HexDigest(w.m.sha256(p.files[a.name]));
      }
    }
  }

  /** Every release of a history, read back as it was published, is accepted with
      the report it was built from, exactly when each problem in it names a
      platform. */
  lemma EveryReleaseIsAccepted(w: World, h: seq<Past>, i: nat)
    requires Sane(w) && Valid(w, h) && i < |h|
    ensures Accepts(w.m, h[i].run.contract, h[i].run.version, h[i].Channel(), h[i].files, h[i].run.report)
       <==> forall problem | problem in h[i].run.report.problems :: problem.platform.family != ""
  {
    hide Publishes, Valid, Assembled, Accepts, WellFormed, DecisionsOf, CurrentOf, ContextOf, Build.TrustedDecision;
    var g, p := h[..i], h[i];
    PrefixValid(w, h, i);
    Tags(w, g);
    var job := JobOf(w, g, p);
    forall c | c in job.contract.components && Carried(job.plan, c.id)
      ensures Build.TrustedDecision(job.plan.decisions[c.id], c.kind.Player?, "v" + job.version, p.version.code,
        job.channel)
    {
      CarriedIsTrusted(w, g, p, c);
    }
    WellFormedContract(w, g, p);
    OwnInventory(w, g, p);
    AssembledHere(w, g, p);
    Build.BuildIsVerified(w.m, job, p.run.assets, p.inventory, p.files);
  }

  lemma AssembledHere(w: World, h: seq<Past>, p: Past)
    requires DistinctTags(h) && Publishes(w, h, p)
    ensures Assembled(w.m, JobOf(w, h, p), p.run.assets, p.inventory, p.files)
  {
    hide Assembled, WellFormed, JobOf;
  }

  /** A run resumes a draft, carries forward only what is pending, and builds only
      what it decided to build: then no component is both carried and built. */
  lemma ResumedRunNeverConflicts(m: Meter, o: Oracles, shelf: Shelf, ctx: Context, job: Job, code: nat,
                                 draft: Directory, draftReport: Report, files: Directory, c: Component)
    requires WellFormed(job.contract, job.version) && job.contract == ctx.contract && c in job.contract.components
    requires job.plan.decisions == DecisionsOf(m, o, shelf, ctx, job.contract.components)
    requires forall d | d in job.contract.components && Build.Complete(d, job.version, draft, draftReport) ::
      d.id !in ctx.pending
    requires forall name | name in files && name != INVENTORY && name != CHECKSUMS ::
      exists d :: d in job.contract.components && name in Names(d, job.version)
        && (Build.Complete(d, job.version, draft, draftReport) || !Carried(job.plan, d.id))
    requires job.serverDigest != "" ==>
      forall d | d in job.contract.components && d.kind.ServerImage? :: d.id !in ctx.pending || !Carried(job.plan, d.id)
    ensures Status(m, job, code, files, c).Ok?
  {
    hide Status, Names, Build.Complete;
    forall d | d in job.contract.components && d.id !in ctx.pending ensures !Carried(job.plan, d.id) {
      DecisionAt(m, o, shelf, ctx, job.contract.components, d);
      NotPending(m, o, shelf, ctx, d);
    }
    Build.OnlyBuiltNeverConflicts(m, job, code, files, c);
  }

  lemma NotPending(m: Meter, o: Oracles, shelf: Shelf, ctx: Context, c: Component)
    requires c.id !in ctx.pending
    ensures DecideOne(m, o, shelf, ctx, c) == ToBuild
  {
  }
}
