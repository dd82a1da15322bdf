/** What the Server image aliases promise of the components behind them: the history
    of releases and the history of promotions told as one. */
module Holders {
  import opened Text
  import opened Versions
  import opened History
  import opened Promises
  import Aliases
  import Plan

  /** The versions a sequence of events publishes, in order. */
  function Publications(events: seq<Aliases.Event>): seq<Version> {
    if events == [] then []
    else
      var last := events[|events| - 1];
      Publications(events[..|events| - 1]) + if last.Publish? then [last.version] else []
  }

  /** The events publish the releases of the history, and promote what they will. */
  ghost predicate Tells(events: seq<Aliases.Event>, h: seq<Past>) {
    Publications(events) == seq(|h|, i requires 0 <= i < |h| => h[i].version)
  }

  lemma OneMoreTold(events: seq<Aliases.Event>, h: seq<Past>)
    requires events != [] && Tells(events, h)
    ensures var front, last := events[..|events| - 1], events[|events| - 1];
      if last.Publish? then h != [] && last.version == h[|h| - 1].version
        && Tells(front, h[..|h| - 1]) else Tells(front, h)
  {
    var front, last := events[..|events| - 1], events[|events| - 1];
    if last.Publish? {
      var told := Publications(events);
      assert told[..|told| - 1] == Publications(front) && told[|told| - 1] == last.version;
    }
  }

  /** Every publication of a valid history is accepted. */
  lemma {:induction false} PublishedSoFar(w: World, h: seq<Past>, events: seq<Aliases.Event>)
    requires Valid(w, h) && Tells(events, h)
    ensures Aliases.Run(Aliases.EMPTY, events).published == VersionsOf(h)
    decreases |events|
  {
    hide Valid, Publishes, Aliases.Run, VersionsOf, Tells, Plan.FromTag, Plan.MayPublish;
    if events == [] {
      assert Aliases.Run(Aliases.EMPTY, events).published == {} && h == [] by { NothingTold(events, h); }
      NoVersions();
    } else {
      var front, last := events[..|events| - 1], events[|events| - 1];
      assert events == front + [last];
      OneMoreTold(events, h);
      Aliases.OneMoreEvent(front, last);
      if last.Publish? {
        var n := |h| - 1;
        assert h == h[..n] + [h[n]];
        PrefixValid(w, h, n);
        PublishedSoFar(w, h[..n], front);
        OneMoreVersion(h[..n], h[n]);
        Tags(w, h[..n]);
        Accepted(w, h[..n], h[n]);
      } else {
        PublishedSoFar(w, h, front);
      }
    }
  }

  lemma NothingTold(events: seq<Aliases.Event>, h: seq<Past>)
    requires events == [] && Tells(events, h)
    ensures h == [] && Aliases.Run(Aliases.EMPTY, events) == Aliases.EMPTY
  {
    assert |Publications(events)| == |h|;
  }

  lemma Accepted(w: World, h: seq<Past>, p: Past)
    requires Valid(w, h) && DistinctTags(h) && Publishes(w, h, p)
    ensures Plan.FromTag(p.version) && Plan.MayPublish(VersionsOf(h), p.version) && p.version !in VersionsOf(h)
  {
    hide Publishes, Valid, Plan.FromTag;
    Ordered(w, h, p);
    VersionsCoordinated(w, h);
    VersionsDistinct(w, h);
    Plan.PublishingKeepsCodesDistinct(VersionsOf(h), p.version);
  }

  /** An alias names a release of the history, and `beta` one that was the newest of
      either kind when it was published. */
  lemma {:induction false} Holder(w: World, h: seq<Past>, events: seq<Aliases.Event>)
    requires Valid(w, h) && Tells(events, h)
    ensures var s := Aliases.Run(Aliases.EMPTY, events);
      && (s.stable.Some? ==> s.stable.value in VersionsOf(h) && s.stable.value.channel == Some(Stable))
      && (s.beta.Some? ==> exists a | 0 <= a < |h| :: h[a].version == s.beta.value && NewestThen(h, a))
    decreases |events|
  {
    hide Valid, Publishes, Aliases.Run, Tells, Plan.FromTag, Plan.MayPublish;
    Aliases.RunKeepsInv(Aliases.EMPTY, events);
    PublishedSoFar(w, h, events);
    if events == [] {
      NothingTold(events, h);
    } else {
      var front, last := events[..|events| - 1], events[|events| - 1];
      assert events == front + [last];
      OneMoreTold(events, h);
      Aliases.OneMoreEvent(front, last);
      if last.Publish? {
        var n := |h| - 1;
        PrefixValid(w, h, n);
        Holder(w, h[..n], front);
        KeepsNewest(h);
      } else {
        Holder(w, h, front);
        PublishedSoFar(w, h, front);
        if last.version in VersionsOf(h) && Plan.Owns(VersionsOf(h), None, last.version) {
          var a := NewestOf(w, h, last.version);
        }
      }
    }
  }

  lemma KeepsNewest(h: seq<Past>)
    requires h != []
    ensures forall a | 0 <= a < |h| - 1 && NewestThen(h[..|h| - 1], a) :: NewestThen(h, a)
  {
  }

  lemma NewestOf(w: World, h: seq<Past>, v: Version) returns (a: nat)
    requires Valid(w, h) && Plan.Owns(VersionsOf(h), None, v)
    ensures a < |h| && h[a].version == v && NewestThen(h, a)
  {
    hide Valid;
    CodesDistinct(w, h);
    a :| 0 <= a < |h| && h[a].version == v;
    forall q | 0 <= q < a ensures h[q].version.code < h[a].version.code {
      assert h[q].version in VersionsOf(h) && Plan.Tracks(None, h[q].version);
    }
  }

  // ---- the components behind the aliases ---------------------------------------------------

  lemma RunOf(before: seq<Aliases.Event>, after: seq<Aliases.Event>)
    ensures var s, t := Aliases.Run(Aliases.EMPTY, before), Aliases.Run(Aliases.EMPTY, before + after);
      Aliases.Inv(s) && Aliases.Inv(t) && Aliases.Code(s.stable) <= Aliases.Code(t.stable)
      && Aliases.Code(s.beta) <= Aliases.Code(t.beta)
  {
    hide Aliases.Inv;
    assert Aliases.Inv(Aliases.EMPTY) by { EmptyShelf(); }
    Aliases.RunAppends(Aliases.EMPTY, before, after);
    Aliases.RunKeepsInv(Aliases.EMPTY, before);
    Aliases.RunKeepsInv(Aliases.Run(Aliases.EMPTY, before), after);
  }

  lemma EmptyShelf()
    ensures Aliases.Inv(Aliases.EMPTY)
  {
  }

  /** The releases of the first part of a told history are its first releases. */
  lemma {:induction false} ToldBefore(before: seq<Aliases.Event>, after: seq<Aliases.Event>,
                                      h: seq<Past>) returns (n: nat)
    requires Tells(before + after, h)
    ensures n <= |h| && Tells(before, h[..n])
    decreases |after|
  {
    hide Tells;
    if after == [] {
      assert before + after == before && h[..|h|] == h;
      n := |h|;
    } else {
      var events, rest := before + after, after[..|after| - 1];
      assert events[..|events| - 1] == before + rest;
      OneMoreTold(events, h);
      if events[|events| - 1].Publish? {
        n := ToldBefore(before, rest, h[..|h| - 1]);
        assert h[..|h| - 1][..n] == h[..n];
      } else {
        n := ToldBefore(before, rest, h);
      }
    }
  }

  /** Between any two points of any history of publications and promotions, no
      component that both holders of `stable` hold goes to an older build. */
  lemma StableNeverGoesBack(w: World, h: seq<Past>, before: seq<Aliases.Event>, after: seq<Aliases.Event>,
                            a: nat, z: nat, id: string)
    requires Sane(w) && Valid(w, h) && Tells(before + after, h) && a < |h| && z < |h|
    requires Aliases.Run(Aliases.EMPTY, before).stable == Some(h[a].version)
    requires Aliases.Run(Aliases.EMPTY, before + after).stable == Some(h[z].version)
    requires Holds(h[a], id) && Holds(h[z], id)
    ensures CodeAt(h[a], id) <= CodeAt(h[z], id)
  {
    hide Valid, Aliases.Run, Tells, EntryAt, CodeAt;
    RunOf(before, after);
    CodesDistinct(w, h);
    var n := ToldBefore(before, after, h);
    PrefixIsValid(w, h, n);
    Holder(w, h[..n], before);
    Holder(w, h, before + after);
    if a != z { StablesMoveForward(w, h, a, z, id); }
  }

  lemma PrefixIsValid(w: World, h: seq<Past>, n: nat)
    requires Valid(w, h) && n <= |h|
    ensures Valid(w, h[..n])
  {
    hide Valid;
    if n == |h| {
      assert h[..n] == h;
    } else {
      PrefixValid(w, h, n);
    }
  }

  /** Between any two points, a component that both holders of `beta` hold goes to an
      older build exactly when some release on the way from one to the other carried
      it forward past a build of it. */
  lemma BetaGoesBackExactly(w: World, h: seq<Past>, before: seq<Aliases.Event>, after: seq<Aliases.Event>,
                            a: nat, z: nat, id: string)
    requires Sane(w) && Valid(w, h) && Tells(before + after, h) && a < |h| && z < |h| && a != z
    requires Aliases.Run(Aliases.EMPTY, before).beta == Some(h[a].version)
    requires Aliases.Run(Aliases.EMPTY, before + after).beta == Some(h[z].version)
    requires Holds(h[a], id) && Holds(h[z], id)
    ensures CodeAt(h[z], id) < CodeAt(h[a], id) <==> GoesBack(h, a, z, id)
  {
    hide Valid, Aliases.Run, Tells, EntryAt, CodeAt, GoesBack;
    RunOf(before, after);
    CodesDistinct(w, h);
    var n := ToldBefore(before, after, h);
    PrefixIsValid(w, h, n);
    Holder(w, h[..n], before);
    var b :| 0 <= b < n && h[..n][b].version == h[a].version && NewestThen(h[..n], b);
    assert h[b].version == h[a].version && b == a;
    assert NewestThen(h, a) by { NewestInAll(h, n, a); }
    GoesBackExactly(w, h, a, z, id);
  }

  lemma NewestInAll(h: seq<Past>, n: nat, a: nat)
    requires n <= |h| && a < n && NewestThen(h[..n], a)
    ensures NewestThen(h, a)
  {
  }

  // ---- a promotion that never ran --------------------------------------------------------------

  /** Four releases of which the third is never promoted. */
  function ThirdNotPromoted(h: seq<Past>): (events: (seq<Aliases.Event>, seq<Aliases.Event>))
    requires |h| == 4
  {
    ([Aliases.Publish(h[0].version), Aliases.Promote(h[0].version),
      Aliases.Publish(h[1].version), Aliases.Promote(h[1].version)],
     [Aliases.Publish(h[2].version), Aliases.Publish(h[3].version), Aliases.Promote(h[3].version)])
  }

  /** `beta` then moves from the second straight to the fourth. */
  lemma BetaSkipsTheThird(w: World, h: seq<Past>)
    requires Valid(w, h) && |h| == 4
    requires h[0].version.code < h[1].version.code < h[2].version.code < h[3].version.code
    ensures var events := ThirdNotPromoted(h);
      && Tells(events.0 + events.1, h)
      && Aliases.Run(Aliases.EMPTY, events.0).beta == Some(h[1].version)
      && Aliases.Run(Aliases.EMPTY, events.0 + events.1).beta == Some(h[3].version)
  {
    hide Valid, Aliases.Run, Aliases.Step, Tells, VersionsOf;
    var e := ThirdNotPromoted(h);
    var one, two := [Aliases.Publish(h[0].version)], e.0[..2];
    var three, five, six := e.0[..3], e.0 + e.1[..1], e.0 + e.1[..2];
    assert e.0 == three + [e.0[3]] && three == two + [e.0[2]] && two == one + [e.0[1]] && one == [] + [e.0[0]];
    assert e.0 + e.1 == six + [e.1[2]] && six == five + [e.1[1]] && five == e.0 + [e.1[0]];
    ToldOne([], h[..0], h[0], e.0[0]);
    assert h[..0] + [h[0]] == h[..1];
    ToldPromotion(one, h[..1], e.0[1]);
    ToldOne(two, h[..1], h[1], e.0[2]);
    assert h[..1] + [h[1]] == h[..2];
    ToldPromotion(three, h[..2], e.0[3]);
    ToldOne(e.0, h[..2], h[2], e.1[0]);
    assert h[..2] + [h[2]] == h[..3];
    ToldOne(five, h[..3], h[3], e.1[1]);
    assert h[..3] + [h[3]] == h;
    ToldPromotion(six, h, e.1[2]);
    PrefixIsValid(w, h, 2);
    PromotesNewest(w, h[..2], three, 1);
    PromotesNewest(w, h, six, 3);
  }

  lemma ToldOne(events: seq<Aliases.Event>, h: seq<Past>, p: Past, e: Aliases.Event)
    requires (Tells(events, h) || (events == [] && h == [])) && e == Aliases.Publish(p.version)
    ensures Tells(events + [e], h + [p])
  {
    assert (events + [e])[..|events|] == events;
    assert Publications(events + [e]) == Publications(events) + [p.version];
  }

  lemma ToldPromotion(events: seq<Aliases.Event>, h: seq<Past>, e: Aliases.Event)
    requires Tells(events, h) && e.Promote?
    ensures Tells(events + [e], h)
  {
    assert (events + [e])[..|events|] == events;
    assert Publications(events + [e]) == Publications(events) + [];
  }

  lemma PromotesNewest(w: World, h: seq<Past>, events: seq<Aliases.Event>, k: nat)
    requires Valid(w, h) && Tells(events, h) && k < |h|
    requires forall p | p in h :: p.version.code <= h[k].version.code
    ensures Aliases.Run(Aliases.EMPTY, events + [Aliases.Promote(h[k].version)]).beta == Some(h[k].version)
  {
    hide Valid, Aliases.Run, Tells;
    var v := h[k].version;
    PublishedSoFar(w, h, events);
    Aliases.OneMoreEvent(events, Aliases.Promote(v));
    assert Plan.Tracks(None, v);
  }
}
