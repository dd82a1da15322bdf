/** The Server image aliases over every publication history: releases are
    published one at a time, and any published release may promote (or promote
    again, in a resumed run) the aliases it still owns
    (scripts/release/release_plan.py, scripts/release/promote-server-aliases.sh). */
module Aliases {
  import opened Text
  import opened Versions
  import opened Plan

  datatype Event = Publish(version: Version) | Promote(version: Version)

  /** `promoted` remembers which releases have run their promotion. */
  datatype Shelf = Shelf(published: set<Version>, promoted: set<Version>,
                         stable: Option<Version>, latest: Option<Version>, beta: Option<Version>)

  const EMPTY := Shelf({}, {}, None, None, None)

  /** A refused publication, or a promotion of an unpublished tag, changes nothing. */
  ghost function Step(s: Shelf, e: Event): Shelf {
    match e
    case Publish(v) =>
      if FromTag(v) && v !in s.published && MayPublish(s.published, v) then s.(published := s.published + {v}) else s
    case Promote(v) =>
      if v !in s.published then s
      else
        var stable := if Owns(s.published, Some(Stable), v) then Some(v) else s.stable;
        s.(stable := stable, latest := stable,
           beta := if Owns(s.published, None, v) then Some(v) else s.beta,
           promoted := s.promoted + {v})
  }

  ghost function Run(s: Shelf, events: seq<Event>): Shelf
    decreases |events|
  {
    if events == [] then s else Run(Step(s, events[0]), events[1..])
  }

  function Code(alias: Option<Version>): int {
    match alias case Some(v) => v.code case None => -1
  }

  ghost predicate Inv(s: Shelf) {
    && Coordinated(s.published) && DistinctCodes(s.published) && s.promoted <= s.published
    && s.latest == s.stable
    && (s.stable.Some? ==> s.stable.value in s.promoted && s.stable.value.channel == Some(Stable))
    && (s.beta.Some? ==> s.beta.value in s.promoted)
    && (forall v | v in s.promoted && Owns(s.published, Some(Stable), v) :: s.stable == Some(v))
    && (forall v | v in s.promoted && Owns(s.published, None, v) :: s.beta == Some(v))
  }

  lemma StepKeepsInv(s: Shelf, e: Event)
    requires Inv(s)
    ensures Inv(Step(s, e))
    ensures Code(s.stable) <= Code(Step(s, e).stable)
    ensures Code(s.beta) <= Code(Step(s, e).beta)
  {
    hide FromTag;
    match e
    case Publish(v) =>
      if FromTag(v) && v !in s.published && MayPublish(s.published, v) {
        PublishingKeepsCodesDistinct(s.published, v);
      }
    case Promote(v) =>
  }

  lemma {:induction false} RunKeepsInv(s: Shelf, events: seq<Event>)
    requires Inv(s)
    ensures Inv(Run(s, events))
    ensures Code(s.stable) <= Code(Run(s, events).stable) && Code(s.beta) <= Code(Run(s, events).beta)
    decreases |events|
  {
    if events != [] {
      StepKeepsInv(s, events[0]);
      RunKeepsInv(Step(s, events[0]), events[1..]);
    }
  }

  lemma {:induction false} RunAppends(s: Shelf, a: seq<Event>, b: seq<Event>)
    ensures Run(s, a + b) == Run(Run(s, a), b)
    decreases |a|
  {
    if a == [] {
      assert a + b == b;
    } else {
      assert (a + b)[1..] == a[1..] + b;
      RunAppends(Step(s, a[0]), a[1..], b);
    }
  }

  /** In every history of publications and promotions, however they interleave:
      published codes are distinct, an alias only ever names a published release
      of its own kind, and between any two points of the history neither alias
      goes backwards. */
  lemma AliasesNeverGoBack(a: seq<Event>, b: seq<Event>)
    ensures var s, t := Run(EMPTY, a), Run(EMPTY, a + b);
      && s.published <= t.published && DistinctCodes(t.published)
      && t.latest == t.stable
      && (t.stable.Some? ==> t.stable.value in t.published && t.stable.value.channel == Some(Stable))
      && (t.beta.Some? ==> t.beta.value in t.published)
      && Code(s.stable) <= Code(t.stable) && Code(s.beta) <= Code(t.beta)
  {
    RunAppends(EMPTY, a, b);
    RunKeepsInv(EMPTY, a);
    RunKeepsInv(Run(EMPTY, a), b);
    PublishedGrows(Run(EMPTY, a), b);
  }

  lemma {:induction false} PublishedGrows(s: Shelf, events: seq<Event>)
    ensures s.published <= Run(s, events).published
    decreases |events|
  {
    if events != [] {
      PublishedGrows(Step(s, events[0]), events[1..]);
    }
  }

  /** An alias names the newest release it tracks exactly when that release has
      run its promotion. */
  lemma AliasNamesNewestIffPromoted(events: seq<Event>, newest: Version)
    ensures var s := Run(EMPTY, events);
      && (Owns(s.published, Some(Stable), newest) ==> (s.stable == Some(newest) <==> newest in s.promoted))
      && (Owns(s.published, None, newest) ==> (s.beta == Some(newest) <==> newest in s.promoted))
  {
    RunKeepsInv(EMPTY, events);
  }

  /** The newest Stable and the newest release of either kind have been promoted. */
  ghost predicate NewestPromoted(s: Shelf) {
    forall v | v in s.published && (Owns(s.published, Some(Stable), v) || Owns(s.published, None, v)) :: v in s.promoted
  }

  /** `stable` and `latest` name the newest Stable and `beta` the newest release of
      either kind exactly when those two have been promoted, and then `beta` is not
      behind `stable`. */
  lemma SettledAliases(events: seq<Event>)
    ensures var s := Run(EMPTY, events);
      && s.latest == s.stable
      && (NewestPromoted(s) <==> IsNewest(s.published, Some(Stable), s.stable) && IsNewest(s.published, None, s.beta))
      && (NewestPromoted(s) ==> !Lags(s))
  {
    var s := Run(EMPTY, events);
    RunKeepsInv(EMPTY, events);
    NewestAreNamed(s);
    hide Owns;
  }

  lemma NewestAreNamed(s: Shelf)
    requires Inv(s)
    ensures NewestPromoted(s) <==> IsNewest(s.published, Some(Stable), s.stable) && IsNewest(s.published, None, s.beta)
    ensures NewestPromoted(s) ==> !Lags(s)
  {
    hide Inv, IsNewest, FromTag;
    var stable := NewestExists(s.published, Some(Stable));
    var any := NewestExists(s.published, None);
    NamedIsPromoted(s, Some(Stable), s.stable, stable);
    NamedIsPromoted(s, None, s.beta, any);
    NotBehind(s);
  }

  /** What names the newest of a kind is promoted, and the other way round. */
  lemma NamedIsPromoted(s: Shelf, channel: Option<Channel>, alias: Option<Version>, newest: Option<Version>)
    requires Inv(s) && IsNewest(s.published, channel, newest)
    requires (channel == Some(Stable) && alias == s.stable) || (channel == None && alias == s.beta)
    ensures IsNewest(s.published, channel, alias) <==> alias == newest
    ensures alias == newest <==> forall v | v in s.published && Owns(s.published, channel, v) :: v in s.promoted
  {
    hide FromTag;
    assert alias.Some? ==> alias.value in s.published && Tracks(channel, alias.value);
    if newest.Some? {
      forall v | v in s.published && Owns(s.published, channel, v) ensures v == newest.value {}
      assert Owns(s.published, channel, newest.value);
    }
  }

  lemma NotBehind(s: Shelf)
    requires Inv(s)
    ensures IsNewest(s.published, Some(Stable), s.stable) && IsNewest(s.published, None, s.beta) ==> !Lags(s)
  {
    hide FromTag;
    if s.stable.Some? { assert Tracks(None, s.stable.value); }
  }

  lemma {:induction false} NewestExists(versions: set<Version>,
                                        channel: Option<Channel>) returns (newest: Option<Version>)
    ensures IsNewest(versions, channel, newest)
  {
    if versions == {} {
      newest := None;
    } else {
      var v :| v in versions;
      newest := NewestExists(versions - {v}, channel);
      if Tracks(channel, v) && (newest.None? || newest.value.code <= v.code) {
        newest := Some(v);
      }
      assert versions == (versions - {v}) + {v};
    }
  }

  // ---- when `beta` is behind `stable` -----------------------------------------------------

  predicate Lags(s: Shelf) { Code(s.beta) < Code(s.stable) }

  /** Promoting the newest Stable while a newer Beta is published, and `beta` names
      something older than either. */
  ghost predicate FallsBehind(s: Shelf, e: Event) {
    && e.Promote? && e.version in s.published
    && Owns(s.published, Some(Stable), e.version) && !Owns(s.published, None, e.version)
    && Code(s.beta) < e.version.code
  }

  /** Promoting the newest release of either kind. */
  ghost predicate CatchesUp(s: Shelf, e: Event) {
    e.Promote? && e.version in s.published && Owns(s.published, None, e.version)
  }

  lemma StepLags(s: Shelf, e: Event)
    requires Inv(s)
    ensures Lags(Step(s, e)) <==> FallsBehind(s, e) || (Lags(s) && !CatchesUp(s, e))
  {
    hide FromTag;
  }

  /** The promotion at one point left `beta` behind, and none since has caught up. */
  ghost predicate LeftBehind(events: seq<Event>, i: nat)
    requires i < |events|
  {
    && FallsBehind(Run(EMPTY, events[..i]), events[i])
    && forall j | i < j < |events| :: !CatchesUp(Run(EMPTY, events[..j]), events[j])
  }

  lemma StillBehind(front: seq<Event>, e: Event, i: nat)
    requires i <= |front|
    ensures LeftBehind(front + [e], i) <==>
      if i == |front| then FallsBehind(Run(EMPTY, front), e)
        else LeftBehind(front, i) && !CatchesUp(Run(EMPTY, front), e)
  {
    hide Run, FallsBehind, CatchesUp;
    var events, n := front + [e], |front|;
    assert events[..n] == front && events[n] == e;
    forall j | 0 <= j < n ensures events[..j] == front[..j] && events[j] == front[j] {}
    if i < n && LeftBehind(events, i) {
      assert !CatchesUp(Run(EMPTY, events[..n]), events[n]);
      forall j | i < j < n ensures !CatchesUp(Run(EMPTY, front[..j]), front[j]) {
        assert !CatchesUp(Run(EMPTY, events[..j]), events[j]);
      }
    }
  }

  /** In every history `beta` is behind `stable` exactly when some promotion left it
      behind and none since has caught up; so it never is exactly when no promotion
      ever leaves it behind. */
  lemma {:induction false} BetaLagsExactly(events: seq<Event>)
    ensures Lags(Run(EMPTY, events)) <==> exists i | 0 <= i < |events| :: LeftBehind(events, i)
    decreases |events|
  {
    hide Step, FallsBehind, CatchesUp, Lags, Run, LeftBehind;
    if events == [] {
      assert events == [];
      NothingLags();
    } else {
      var n := |events| - 1;
      var front, last := events[..n], events[n];
      assert events == front + [last];
      BetaLagsExactly(front);
      RunKeepsInv(EMPTY, front);
      OneMoreEvent(front, last);
      StepLags(Run(EMPTY, front), last);
      forall i | 0 <= i <= n
        ensures LeftBehind(events, i) <==>
          if i == n then FallsBehind(Run(EMPTY, front), last)
            else LeftBehind(front, i) && !CatchesUp(Run(EMPTY, front), last)
      {
        StillBehind(front, last, i);
      }
      if Lags(Run(EMPTY, events)) {
        if FallsBehind(Run(EMPTY, front), last) {
          assert LeftBehind(events, n);
        } else {
          var i :| 0 <= i < n && LeftBehind(front, i);
          assert LeftBehind(events, i);
        }
      }
    }
  }

  lemma OneMoreEvent(events: seq<Event>, e: Event)
    ensures Run(EMPTY, events + [e]) == Step(Run(EMPTY, events), e)
  {
    hide Step;
    RunAppends(EMPTY, events, [e]);
    assert [e][1..] == [];
    assert Run(Run(EMPTY, events), [e]) == Run(Step(Run(EMPTY, events), e), []);
  }

  lemma NothingLags()
    ensures !Lags(Run(EMPTY, []))
  {
  }

  /** A publication whose promotion has not run can leave `beta` behind `stable`:
      a Beta is published but not promoted, then a Stable below it is. */
  lemma UnpromotedBetaLagsStable(base: Version, beta: Version, next: Version)
    requires FromTag(base) && FromTag(beta) && FromTag(next)
    requires base.channel == next.channel == Some(Stable) && beta.channel == Some(Beta)
    requires base.code < next.code < beta.code
    ensures var s := Run(EMPTY, [Publish(base), Promote(base), Publish(beta), Publish(next), Promote(next)]);
      s.stable == Some(next) && s.beta == Some(base) && Code(s.beta) < Code(s.stable)
  {
    hide FromTag;
    var one := Step(EMPTY, Publish(base));
    var two := Step(one, Promote(base));
    var three := Step(two, Publish(beta));
    var four := Step(three, Publish(next));
    var five := Step(four, Promote(next));
    assert one.published == {base};
    assert two.stable == Some(base) && two.beta == Some(base);
    assert three.published == {base, beta} && four.published == {base, beta, next};
    assert !Owns(four.published, None, next);
    Runs5(EMPTY, Publish(base), Promote(base), Publish(beta), Publish(next), Promote(next));
  }

  /** For example v0.26.0, then v0.28.0-beta.1 without its promotion, then v0.27.0. */
  lemma BetaLagsAtTags() returns (base: Version, beta: Version, next: Version)
    ensures ParseTag("v0.26.0") == Some(base) && ParseTag("v0.28.0-beta.1") == Some(beta)
    ensures ParseTag("v0.27.0") == Some(next)
    ensures Lags(Run(EMPTY, [Publish(base), Promote(base), Publish(beta), Publish(next), Promote(next)]))
  {
    hide ParseTag, FromTag, VersionName, Run, Step;
    base := At(Core(0, 26, 0), STABLE_SLOT);
    beta := At(Core(0, 28, 0), 1);
    next := At(Core(0, 27, 0), STABLE_SLOT);
    Spelled();
    assert "v" + base.name == "v0.26.0" && "v" + next.name == "v0.27.0" && "v" + beta.name == "v0.28.0-beta.1";
    UnpromotedBetaLagsStable(base, beta, next);
  }

  lemma Spelled()
    ensures VersionName(Core(0, 26, 0), STABLE_SLOT) == "0.26.0"
    ensures VersionName(Core(0, 27, 0), STABLE_SLOT) == "0.27.0"
    ensures VersionName(Core(0, 28, 0), 1) == "0.28.0-beta.1"
  {
    hide Decimal;
    Digits();
  }

  lemma Digits()
    ensures Decimal(0) == "0" && Decimal(1) == "1"
    ensures Decimal(26) == "26" && Decimal(27) == "27" && Decimal(28) == "28"
  {
    assert Decimal(2) == "2";
    assert Decimal(26) == "2" + "6" && Decimal(27) == "2" + "7" && Decimal(28) == "2" + "8";
  }

  lemma At(core: Core, slot: nat) returns (v: Version)
    requires core.major <= 20 && core.minor < 1_000 && core.patch < 1_000
    requires CUTOVER_CORE_CODE <= core.Code() && 1 <= slot <= STABLE_SLOT
    ensures v == Version(VersionName(core, slot), core.Code() * 100 + slot,
                         Some(if slot == STABLE_SLOT then Stable else Beta), core)
    ensures ParseTag("v" + v.name) == Some(v) && FromTag(v)
  {
    hide ParseVersion, VersionName;
    NamesRoundTrip(core, slot);
    v := ParseVersion(VersionName(core, slot)).value;
    assert ("v" + v.name)[1..] == v.name;
  }

  lemma Runs5(s: Shelf, a: Event, b: Event, c: Event, d: Event, e: Event)
    ensures Run(s, [a, b, c, d, e]) == Step(Step(Step(Step(Step(s, a), b), c), d), e)
  {
    hide Step;
    assert [a, b, c, d, e] == [a] + ([b] + ([c] + ([d] + [e])));
    assert Run(s, [a]) == Step(s, a) && [a][1..] == [];
    RunAppends(s, [a], [b] + ([c] + ([d] + [e])));
    RunAppends(Step(s, a), [b], [c] + ([d] + [e]));
    RunAppends(Step(Step(s, a), b), [c], [d] + [e]);
    RunAppends(Step(Step(Step(s, a), b), c), [d], [e]);
    forall t: Shelf, x: Event ensures Run(t, [x]) == Step(t, x) {
      assert [x][1..] == [];
    }
  }
}
