/** Which libraries a Tilecast Edge release carries itself
    (apps/edge/release/runtime_closure.py): the packages the operating system is
    expected to provide, the libraries they do not, and what that means for a
    binary started on a system with nothing but the baseline installed. */
module Closure {
  import opened Text

  // ---- the system's side ----------------------------------------------------------

  /** An installed package, as dpkg describes it. */
  datatype Package = Package(depends: seq<string>, provided: seq<string>)

  type Packages = map<string, Package>

  /** A name means the package of that name, or every provider of a virtual one. */
  predicate Means(packages: Packages, name: string, p: string) {
    p in packages && (p == name || (name !in packages && name in packages[p].provided))
  }

  ghost predicate DependencyClosed(packages: Packages, s: set<string>) {
    forall q, d, p | q in s && q in packages && d in packages[q].depends && Means(packages, d, p) :: p in s
  }

  /** The least set with the baseline that every dependency stays inside. */
  ghost predicate IsClosure(packages: Packages, baseline: seq<string>, closure: set<string>) {
    && Elements(baseline) <= closure <= packages.Keys
    && DependencyClosed(packages, closure)
    && forall s | Elements(baseline) <= s && DependencyClosed(packages, s) :: closure <= s
  }

  /** How many names in a list are virtual. */
  function Virtuals(packages: Packages, names: seq<string>): nat {
    if names == [] then 0
    else Virtuals(packages, names[..|names| - 1]) + if names[|names| - 1] in packages then 0 else 1
  }

  lemma {:induction false} VirtualsOfInstalled(packages: Packages, names: seq<string>, more: seq<string>)
    requires forall name | name in more :: name in packages
    ensures Virtuals(packages, names + more) == Virtuals(packages, names)
    decreases |more|
  {
    if more == [] {
      assert names + more == names;
    } else {
      var n := |more| - 1;
      assert (names + more)[..|names| + n] == names + more[..n];
      VirtualsOfInstalled(packages, names, more[..n]);
    }
  }

  predicate Lists(providers: map<string, seq<string>>, name: string, p: string) {
    name in providers && p in providers[name]
  }

  /** `providers.setdefault(provided, []).append(name)`, for each name one package provides. */
  method AddProvider(providers: map<string, seq<string>>, p: string, provided: seq<string>)
    returns (longer: map<string, seq<string>>)
    ensures forall name, q :: Lists(longer, name, q) <==> Lists(providers, name, q) || (q == p && name in provided)
  {
    longer := providers;
    for k := 0 to |provided|
      invariant forall name, q ::
        Lists(longer, name, q) <==> Lists(providers, name, q) || (q == p && name in provided[..k])
    {
      ghost var before := longer;
      var name := provided[k];
      longer := longer[name := (if name in longer then longer[name] else []) + [p]];
      assert provided[..k + 1] == provided[..k] + [name];
      forall n, q ensures Lists(longer, n, q) <==> Lists(before, n, q) || (q == p && n == name) {}
    }
    assert provided[..|provided|] == provided;
  }

  /** The packages that provide each name. */
  method Providers(packages: Packages) returns (providers: map<string, seq<string>>)
    ensures forall name, p :: Lists(providers, name, p) <==> p in packages && name in packages[p].provided
  {
    hide Lists;
    providers := map[];
    assert forall name, p :: !Lists(providers, name, p) by { NobodyListed(); }
    var names := SortNames(packages.Keys);
    for i := 0 to |names|
      invariant forall name, p ::
        Lists(providers, name, p) <==> p in names[..i] && p in packages && name in packages[p].provided
    {
      assert names[i] in Elements(names);
      assert names[..i + 1] == names[..i] + [names[i]];
      providers := AddProvider(providers, names[i], packages[names[i]].provided);
    }
    assert names[..|names|] == names;
    assert forall p :: p in names <==> p in Elements(names);
  }

  lemma NobodyListed()
    ensures forall name, p :: !Lists(map[], name, p)
  {
  }

  /** Whatever the names still to visit mean, or has been visited already. */
  ghost predicate Covered(packages: Packages, closure: set<string>, pending: seq<string>, p: string) {
    p in closure || exists name :: name in pending && Means(packages, name, p)
  }

  /** Every set that could be the closure holds what is visited and what is pending. */
  ghost predicate Forced(packages: Packages, baseline: seq<string>, closure: set<string>, pending: seq<string>) {
    forall s | Elements(baseline) <= s && DependencyClosed(packages, s) ::
      closure <= s && forall name, p | name in pending && Means(packages, name, p) :: p in s
  }

  /** What visiting one name does: nothing if it was visited, else visit it and add
      its dependencies, or add the providers of a virtual name. */
  ghost predicate Visits(packages: Packages, was: set<string>, name: string, closure: set<string>, more: seq<string>) {
    if name in was then closure == was && more == []
    else if name in packages then closure == was + {name} && more == packages[name].depends
    else closure == was && Elements(more) == set p | p in packages && Means(packages, name, p)
  }

  /** Part way: the baseline and every dependency of what is visited is visited or
      pending, and nothing is that does not have to be. */
  ghost predicate Visited(packages: Packages, baseline: seq<string>, closure: set<string>, pending: seq<string>) {
    && closure <= packages.Keys
    && (forall name | name in baseline :: Covered(packages, closure, pending, name))
    && (forall q, d, p | q in closure && d in packages[q].depends && Means(packages, d, p) ::
          Covered(packages, closure, pending, p))
    && Forced(packages, baseline, closure, pending)
  }

  method Missing(baseline: seq<string>, packages: Packages) returns (missing: seq<string>)
    ensures Elements(missing) == Elements(baseline) - packages.Keys
    ensures missing == [] <==> Elements(baseline) <= packages.Keys
  {
    missing := [];
    for i := 0 to |baseline|
      invariant Elements(missing) == Elements(baseline[..i]) - packages.Keys
    {
      assert baseline[..i + 1] == baseline[..i] + [baseline[i]];
      ElementsAppend(baseline[..i], baseline[i]);
      ElementsAppend(missing, baseline[i]);
      if baseline[i] !in packages {
        missing := missing + [baseline[i]];
      }
    }
    assert baseline[..|baseline|] == baseline;
    EmptyElements(missing);
    if missing == [] {
      forall name | name in Elements(baseline) ensures name in packages {
        assert name !in Elements(baseline) - packages.Keys;
      }
    }
  }

  /** A worklist of names, taken from the end. Err names the packages of the
      baseline that are not installed. */
  method FindClosure(baseline: seq<string>, packages: Packages) returns (r: Result<set<string>, seq<string>>)
    ensures r.Ok? <==> Elements(baseline) <= packages.Keys
    ensures r.Ok? ==> IsClosure(packages, baseline, r.value)
    ensures r.Err? ==> Elements(r.error) == Elements(baseline) - packages.Keys
  {
    hide Visited, IsClosure, Virtuals, Means, Elements;
    var missing := Missing(baseline, packages);
    if missing != [] {
      return Err(missing);
    }
    var providers := Providers(packages);
    var closure: set<string>, pending := {}, baseline;
    Start(packages, baseline);
    while pending != []
      invariant Visited(packages, baseline, closure, pending)
      decreases |packages.Keys - closure|, Virtuals(packages, pending), |pending|
    {
      ghost var was := closure;
      var name, rest := pending[|pending| - 1], pending[..|pending| - 1];
      assert pending == rest + [name];
      var more := [];
      if name !in closure {
        if name in packages {
          closure := closure + {name};
          more := packages[name].depends;
        } else {
          more := if name in providers then providers[name] else [];
        }
      }
      ProvidersMeant(packages, providers, name);
      StepKeepsVisited(packages, baseline, was, rest, name, closure, more);
      StepAdvances(packages, baseline, was, rest, name, closure, more);
      pending := rest + more;
    }
    Settled(packages, baseline, closure);
    r := Ok(closure);
  }

  lemma Start(packages: Packages, baseline: seq<string>)
    requires Elements(baseline) <= packages.Keys
    ensures Visited(packages, baseline, {}, baseline)
  {
    hide Forced;
    StartIsForced(packages, baseline);
  }

  lemma ProvidersMeant(packages: Packages, providers: map<string, seq<string>>, name: string)
    requires forall n, p :: Lists(providers, n, p) <==> p in packages && n in packages[p].provided
    ensures name !in packages ==>
      Elements(if name in providers then providers[name] else []) == set p | p in packages && Means(packages, name, p)
  {
    if name !in packages {
      forall p ensures Lists(providers, name, p) <==> p in packages && Means(packages, name, p) {}
    }
  }

  lemma StepKeepsVisited(packages: Packages, baseline: seq<string>, was: set<string>, rest: seq<string>, name: string,
                         closure: set<string>, more: seq<string>)
    requires Visited(packages, baseline, was, rest + [name]) && Visits(packages, was, name, closure, more)
    ensures Visited(packages, baseline, closure, rest + more)
  {
    hide Forced, Covered, Means;
    StaysForced(packages, baseline, was, rest, name, closure, more);
    forall p | Covered(packages, was, rest + [name], p) ensures Covered(packages, closure, rest + more, p) {
      StaysCovered(packages, was, rest, name, closure, more, p);
    }
    forall q, d, p | q in closure && d in packages[q].depends && Means(packages, d, p)
      ensures Covered(packages, closure, rest + more, p)
    {
      if q !in was {
        assert d in rest + more;
        Awaited(packages, closure, rest + more, d, p);
      }
    }
  }

  lemma Awaited(packages: Packages, closure: set<string>, pending: seq<string>, name: string, p: string)
    requires name in pending && Means(packages, name, p)
    ensures Covered(packages, closure, pending, p)
  {
  }

  /** Either a package is visited, or a virtual name is replaced by packages, or the
      list gets shorter. */
  lemma StepAdvances(packages: Packages, baseline: seq<string>, was: set<string>, rest: seq<string>, name: string,
                     closure: set<string>, more: seq<string>)
    requires Visited(packages, baseline, was, rest + [name]) && Visits(packages, was, name, closure, more)
    ensures |packages.Keys - closure| < |packages.Keys - was|
         || (closure == was && Virtuals(packages, rest + more) < Virtuals(packages, rest + [name]))
         || (closure == was && Virtuals(packages, rest + more) == Virtuals(packages, rest + [name]) && more == [])
  {
    hide Forced, Covered;
    if name !in was && name in packages {
      assert name in packages.Keys - was && name !in packages.Keys - closure;
      Shrinks(packages.Keys - closure, packages.Keys - was);
    } else {
      assert (rest + [name])[..|rest|] == rest;
      forall p | p in more ensures p in packages {
        assert p in Elements(more);
      }
      VirtualsOfInstalled(packages, rest, more);
    }
  }

  lemma Shrinks(a: set<string>, b: set<string>)
    requires a < b
    ensures |a| < |b|
  {
    var c := b - a;
    assert b == a + c && a !! c;
    assert c != {};
  }

  lemma StartIsForced(packages: Packages, baseline: seq<string>)
    requires Elements(baseline) <= packages.Keys
    ensures Forced(packages, baseline, {}, baseline)
    ensures forall name | name in baseline :: Covered(packages, {}, baseline, name)
  {
    forall name, p | name in baseline && Means(packages, name, p) ensures p in Elements(baseline) {
      assert name in Elements(baseline) && name in packages;
    }
    forall name | name in baseline ensures Covered(packages, {}, baseline, name) {
      assert name in Elements(baseline) && Means(packages, name, name);
    }
  }

  lemma StaysForced(packages: Packages, baseline: seq<string>, was: set<string>, rest: seq<string>, name: string,
                    closure: set<string>, more: seq<string>)
    requires Forced(packages, baseline, was, rest + [name]) && Visits(packages, was, name, closure, more)
    ensures Forced(packages, baseline, closure, rest + more)
  {
    forall s | Elements(baseline) <= s && DependencyClosed(packages, s)
      ensures closure <= s && forall n, p | n in rest + more && Means(packages, n, p) :: p in s
    {
      assert name in rest + [name];
      assert name in packages ==> Means(packages, name, name);
      assert closure <= s;
      forall n, p | n in rest + more && Means(packages, n, p) ensures p in s {
        if n in rest {
          assert n in rest + [name];
        } else {
          assert n in more;
          if name in packages {
            assert name in s;
          } else {
            assert n in Elements(more);
          }
        }
      }
    }
  }

  lemma StaysCovered(packages: Packages, was: set<string>, rest: seq<string>, name: string,
                     closure: set<string>, more: seq<string>, p: string)
    requires was <= packages.Keys && Covered(packages, was, rest + [name], p)
    requires Visits(packages, was, name, closure, more)
    ensures Covered(packages, closure, rest + more, p)
  {
    if p !in was {
      var n :| n in rest + [name] && Means(packages, n, p);
      if n in rest {
        assert n in rest + more;
      } else if name !in packages {
        assert n == name && p in Elements(more) && p in rest + more && Means(packages, p, p);
      }
    }
  }

  lemma Settled(packages: Packages, baseline: seq<string>, closure: set<string>)
    requires Visited(packages, baseline, closure, [])
    ensures IsClosure(packages, baseline, closure)
  {
    hide DependencyClosed, Means;
    assert forall p | Covered(packages, closure, [], p) :: p in closure;
    forall name | name in Elements(baseline) ensures name in closure {
      assert Covered(packages, closure, [], name);
    }
    forall s | Elements(baseline) <= s && DependencyClosed(packages, s) ensures closure <= s {}
    StaysInside(packages, closure);
  }

  lemma StaysInside(packages: Packages, closure: set<string>)
    requires closure <= packages.Keys
    requires forall q, d, p | q in closure && d in packages[q].depends && Means(packages, d, p) :: p in closure
    ensures DependencyClosed(packages, closure)
  {
  }

  // ---- carrying ---------------------------------------------------------------------

  /** What the builder image answers: where a soname is, which package owns a file,
      what a file needs, and where a link leads. */
  datatype Image = Image(libraries: map<string, string>, owner: string -> Option<string>,
                         needed: string -> seq<string>, realpath: string -> string)

  datatype Copied = Copied(source: string, package: Option<string>)

  /** A library of the operating system: some package of the closure owns it. */
  predicate FromSystem(image: Image, closure: set<string>, name: string) {
    name in image.libraries
    && image.owner(image.libraries[name]).Some? && image.owner(image.libraries[name]).value in closure
  }

  predicate ToCarry(image: Image, closure: set<string>, present: set<string>, name: string) {
    name in image.libraries && name !in present && !FromSystem(image, closure, name)
  }

  predicate Nowhere(image: Image, present: set<string>, name: string) {
    name !in image.libraries && name !in present
  }

  /** The files a release starts with: its own, and those of the libraries it carries. */
  ghost function Loaded(image: Image, tree: seq<string>, names: set<string>): set<string> {
    Elements(tree) + set name | name in names && name in image.libraries :: image.realpath(image.libraries[name])
  }

  /** Carrying these names leaves no file of the release in need of another. */
  ghost predicate CarryClosed(image: Image, closure: set<string>, present: set<string>, tree: seq<string>,
                              names: set<string>) {
    forall path, name | path in Loaded(image, tree, names) && name in image.needed(path)
      && ToCarry(image, closure, present, name) ::
      name in names
  }

  /** The fewest libraries that can be carried. */
  ghost predicate IsCarried(image: Image, closure: set<string>, present: set<string>, tree: seq<string>,
                            names: set<string>) {
    && (forall name | name in names :: ToCarry(image, closure, present, name))
    && CarryClosed(image, closure, present, tree, names)
    && forall s | CarryClosed(image, closure, present, tree, s) :: names <= s
  }

  /** The needs that nothing in the image provides. */
  ghost predicate Unmet(image: Image, present: set<string>, tree: seq<string>, names: set<string>, path: string,
                        name: string) {
    path in Loaded(image, tree, names) && name in image.needed(path) && Nowhere(image, present, name)
  }

  /** A list of exactly the needs that nothing in the image provides. */
  ghost predicate AllUnmet(image: Image, present: set<string>, tree: seq<string>, names: set<string>,
                           unmet: seq<(string, string)>) {
    forall path, name :: Unmet(image, present, tree, names, path, name) <==> (path, name) in unmet
  }

  function CopyOf(image: Image, name: string): Copied
    requires name in image.libraries
  {
    Copied(image.realpath(image.libraries[name]), image.owner(image.libraries[name]))
  }

  /** A library is copied from where its link leads, on record as its package's. */
  lemma CopiedFromItsPlace(image: Image, name: string)
    requires name in image.libraries
    ensures CopyOf(image, name).source == image.realpath(image.libraries[name])
    ensures CopyOf(image, name).package == image.owner(image.libraries[name])
  {
  }

  /** What has been found out part way: every library carried has to be, every need
      of a file looked at is met or noted, and every other file waits in the queue. */
  ghost predicate PartWay(image: Image, closure: set<string>, present: set<string>, tree: seq<string>,
                          carried: map<string, Copied>, waiting: set<string>, unresolved: seq<(string, string)>) {
    && (forall name | name in carried :: ToCarry(image, closure, present, name) && carried[name] == CopyOf(image, name))
    && (forall s | CarryClosed(image, closure, present, tree, s) :: carried.Keys <= s)
    && waiting <= Loaded(image, tree, carried.Keys)
    && (forall path, name | path in Loaded(image, tree, carried.Keys) - waiting && name in image.needed(path) ::
          Handled(image, closure, present, carried, unresolved, path, name))
    && (forall u | u in unresolved :: Unmet(image, present, tree, carried.Keys, u.0, u.1))
  }

  predicate Handled(image: Image, closure: set<string>, present: set<string>, carried: map<string, Copied>,
                    unresolved: seq<(string, string)>, path: string, name: string) {
    && (ToCarry(image, closure, present, name) ==> name in carried)
    && (Nowhere(image, present, name) ==> (path, name) in unresolved)
  }

  /** One file's needs: what it adds to carry, and the files to look at next. */
  method LookAt(path: string, tree: seq<string>, closure: set<string>, image: Image, present: set<string>,
                carried: map<string, Copied>, unresolved: seq<(string, string)>, ghost waiting: set<string>)
    returns (carrying: map<string, Copied>, found: seq<string>, unmet: seq<(string, string)>)
    requires PartWay(image, closure, present, tree, carried, waiting + {path}, unresolved)
    ensures PartWay(image, closure, present, tree, carrying, waiting + Elements(found), unmet)
    ensures carried.Keys <= carrying.Keys && (found != [] ==> carried.Keys != carrying.Keys)
  {
    hide PartWay, Loaded, CarryClosed, ToCarry, Handled, Unmet, Elements;
    carrying, found, unmet := carried, [], unresolved;
    EmptyElements(found);
    assert waiting + {path} == waiting + Elements(found) + {path};
    var needs := image.needed(path);
    for i := 0 to |needs|
      invariant PartWay(image, closure, present, tree, carrying, waiting + Elements(found) + {path}, unmet)
      invariant forall j | 0 <= j < i :: Handled(image, closure, present, carrying, unmet, path, needs[j])
      invariant carried.Keys <= carrying.Keys && (found != [] ==> carried.Keys != carrying.Keys)
    {
      var name := needs[i];
      ghost var queued := waiting + Elements(found) + {path};
      if name in present || name in carrying {
        Met(image, closure, present, tree, carrying, queued, unmet, path, name);
      } else if name !in image.libraries {
        Note(image, closure, present, tree, carrying, queued, unmet, path, name);
        unmet := unmet + [(path, name)];
      } else {
        var source := image.libraries[name];
        var package := image.owner(source);
        if package.Some? && package.value in closure {
          SystemLibrary(image, closure, present, carrying, unmet, path, name);
        } else {
          MayCarry(image, closure, present, name);
          CarryOne(image, closure, present, tree, carrying, queued, unmet, path, name);
          ElementsAppend(found, image.realpath(source));
          assert queued + {image.realpath(source)} == waiting + (Elements(found) + {image.realpath(source)}) + {path};
          carrying := carrying[name := Copied(image.realpath(source), package)];
          found := found + [image.realpath(source)];
        }
      }
    }
    Looked(image, closure, present, tree, carrying, waiting + Elements(found), unmet, path);
  }

  lemma MayCarry(image: Image, closure: set<string>, present: set<string>, name: string)
    requires name in image.libraries && name !in present && !FromSystem(image, closure, name)
    ensures ToCarry(image, closure, present, name)
  {
  }

  /** A queue of files, taken from the front. Err names each file that needs a
      library nothing provides. */
  method PlanCarry(tree: seq<string>, closure: set<string>, image: Image, present: set<string>)
    returns (r: Result<map<string, Copied>, seq<(string, string)>>)
    ensures r.Ok? ==>
      && IsCarried(image, closure, present, tree, r.value.Keys)
      && (forall name | name in r.value :: r.value[name] == CopyOf(image, name))
      && AllUnmet(image, present, tree, r.value.Keys, [])
    ensures r.Err? ==> r.error != []
    ensures r.Err? ==> exists names ::
      IsCarried(image, closure, present, tree, names) && AllUnmet(image, present, tree, names, r.error)
  {
    hide PartWay, IsCarried, AllUnmet, Elements;
    var carried: map<string, Copied>, queue, unresolved := map[], tree, [];
    StartPartWay(image, closure, present, tree);
    while queue != []
      invariant PartWay(image, closure, present, tree, carried, Elements(queue), unresolved)
      decreases |image.libraries.Keys - carried.Keys|, |queue|
    {
      var path, rest := queue[0], queue[1..];
      HeadElements(queue);
      var carrying, found, unmet := LookAt(path, tree, closure, image, present, carried, unresolved, Elements(rest));
      CarriedExists(image, closure, present, tree, carrying, Elements(rest) + Elements(found), unmet);
      if found != [] {
        Shrinks(image.libraries.Keys - carrying.Keys, image.libraries.Keys - carried.Keys);
      } else {
        Narrows(image.libraries.Keys, carried.Keys, carrying.Keys);
      }
      AllElements(rest, found);
      carried, queue, unresolved := carrying, rest + found, unmet;
    }
    EmptyElements(queue);
    Carried(image, closure, present, tree, carried, unresolved);
    r := if unresolved == [] then Ok(carried) else Err(unresolved);
  }

  lemma HeadElements(queue: seq<string>)
    requires queue != []
    ensures Elements(queue) == Elements(queue[1..]) + {queue[0]}
  {
    assert queue == [queue[0]] + queue[1..];
  }

  lemma AllElements(a: seq<string>, b: seq<string>)
    ensures Elements(a + b) == Elements(a) + Elements(b)
  {
  }

  lemma Narrows(all: set<string>, a: set<string>, b: set<string>)
    requires a <= b
    ensures |all - b| <= |all - a|
  {
    if all - b != all - a { Shrinks(all - b, all - a); }
  }

  lemma StartPartWay(image: Image, closure: set<string>, present: set<string>, tree: seq<string>)
    ensures PartWay(image, closure, present, tree, map[], Elements(tree), [])
  {
  }

  /** A need met by a library already in the release, or already to be carried. */
  lemma Met(image: Image, closure: set<string>, present: set<string>, tree: seq<string>, carried: map<string, Copied>,
            waiting: set<string>, unresolved: seq<(string, string)>, path: string, name: string)
    requires PartWay(image, closure, present, tree, carried, waiting, unresolved)
    requires name in present || name in carried
    ensures Handled(image, closure, present, carried, unresolved, path, name)
  {
  }

  lemma SystemLibrary(image: Image, closure: set<string>, present: set<string>, carried: map<string, Copied>,
                      unresolved: seq<(string, string)>, path: string, name: string)
    requires FromSystem(image, closure, name)
    ensures Handled(image, closure, present, carried, unresolved, path, name)
  {
  }

  lemma Note(image: Image, closure: set<string>, present: set<string>, tree: seq<string>, carried: map<string, Copied>,
             waiting: set<string>, unresolved: seq<(string, string)>, path: string, name: string)
    requires PartWay(image, closure, present, tree, carried, waiting, unresolved)
    requires path in waiting && name in image.needed(path) && Nowhere(image, present, name)
    ensures PartWay(image, closure, present, tree, carried, waiting, unresolved + [(path, name)])
    ensures Handled(image, closure, present, carried, unresolved + [(path, name)], path, name)
    ensures forall n :: Handled(image, closure, present, carried, unresolved, path, n) ==>
      Handled(image, closure, present, carried, unresolved + [(path, name)], path, n)
  {
    hide CarryClosed, Loaded;
    assert (path, name) in unresolved + [(path, name)];
  }

  lemma CarryOne(image: Image, closure: set<string>, present: set<string>, tree: seq<string>, carried: map<string,
                 Copied>,
                 waiting: set<string>, unresolved: seq<(string, string)>, path: string, name: string)
    requires PartWay(image, closure, present, tree, carried, waiting, unresolved)
    requires path in waiting && name in image.needed(path) && ToCarry(image, closure, present, name)
    ensures var more := carried[name := CopyOf(image, name)];
      && PartWay(image, closure, present, tree, more, waiting + {image.realpath(image.libraries[name])}, unresolved)
      && Handled(image, closure, present, more, unresolved, path, name)
      && forall n :: Handled(image, closure, present, carried, unresolved, path, n) ==>
           Handled(image, closure, present, more, unresolved, path, n)
  {
    hide CarryClosed, Loaded;
    var more, file := carried[name := CopyOf(image, name)], image.realpath(image.libraries[name]);
    OneMoreLoaded(image, tree, carried.Keys, name);
    assert more.Keys == carried.Keys + {name};
    forall s | CarryClosed(image, closure, present, tree, s) ensures more.Keys <= s {
      MustCarry(image, closure, present, tree, carried.Keys, s, path, name);
    }
  }

  lemma OneMoreLoaded(image: Image, tree: seq<string>, names: set<string>, name: string)
    requires name in image.libraries
    ensures Loaded(image, tree, names + {name}) == Loaded(image, tree, names) + {image.realpath(image.libraries[name])}
  {
  }

  lemma MustCarry(image: Image, closure: set<string>, present: set<string>, tree: seq<string>, names: set<string>,
                  s: set<string>, path: string, name: string)
    requires CarryClosed(image, closure, present, tree, s) && names <= s && path in Loaded(image, tree, names)
    requires name in image.needed(path) && ToCarry(image, closure, present, name)
    ensures name in s
  {
    assert path in Loaded(image, tree, s);
  }

  /** A file whose every need is handled waits no longer. */
  lemma Looked(image: Image, closure: set<string>, present: set<string>, tree: seq<string>, carried: map<string,
               Copied>,
               waiting: set<string>, unresolved: seq<(string, string)>, path: string)
    requires PartWay(image, closure, present, tree, carried, waiting + {path}, unresolved)
    requires forall j | 0 <= j < |image.needed(path)| ::
      Handled(image, closure, present, carried, unresolved, path, image.needed(path)[j])
    ensures PartWay(image, closure, present, tree, carried, waiting, unresolved)
  {
    hide CarryClosed, Loaded, ToCarry, Handled, Unmet;
  }

  lemma CarriedExists(image: Image, closure: set<string>, present: set<string>, tree: seq<string>,
                      carried: map<string, Copied>,
                      waiting: set<string>, unresolved: seq<(string, string)>)
    requires PartWay(image, closure, present, tree, carried, waiting, unresolved)
    ensures carried.Keys <= image.libraries.Keys
  {
  }

  lemma Carried(image: Image, closure: set<string>, present: set<string>, tree: seq<string>, carried: map<string,
                Copied>,
                unresolved: seq<(string, string)>)
    requires PartWay(image, closure, present, tree, carried, {}, unresolved)
    ensures IsCarried(image, closure, present, tree, carried.Keys)
    ensures forall name | name in carried :: carried[name] == CopyOf(image, name)
    ensures AllUnmet(image, present, tree, carried.Keys, unresolved)
  {
    hide Loaded, ToCarry, Nowhere;
  }

  // ---- starting the release on a system with only the baseline -----------------------

  /** What a soname finds there: the release's own copy first, then a library of the
      operating system. */
  function Resolve(image: Image, closure: set<string>, bundle: map<string, string>, carried: map<string, Copied>,
                   name: string): Option<string> {
    if name in bundle then Some(bundle[name])
    else if name in carried then Some(carried[name].source)
    else if FromSystem(image, closure, name) then Some(image.libraries[name])
    else None
  }

  /** What the release already bundles is part of the tree, or needs nothing itself. */
  ghost predicate BundledIn(image: Image, tree: seq<string>, bundle: map<string, string>) {
    forall name | name in bundle :: bundle[name] in tree || image.needed(bundle[name]) == []
  }

  /** Libraries of the closure need only libraries of the closure. */
  ghost predicate SystemIsWhole(image: Image, closure: set<string>) {
    forall name, need | FromSystem(image, closure, name) && need in image.needed(image.libraries[name]) ::
      FromSystem(image, closure, need)
  }

  /** The dependencies of a package of the closure name the packages its libraries
      are linked against. */
  ghost predicate DependsAreTrue(packages: Packages, image: Image, closure: set<string>) {
    forall name, need | FromSystem(image, closure, name) && need in image.needed(image.libraries[name]) ::
      LinkedInside(packages, image, image.owner(image.libraries[name]).value, need)
  }

  ghost predicate LinkedInside(packages: Packages, image: Image, p: string, need: string) {
    && p in packages && need in image.libraries && image.owner(image.libraries[need]).Some?
    && var q := image.owner(image.libraries[need]).value;
       q == p || exists d :: d in packages[p].depends && Means(packages, d, q)
  }

  /** A sequence of files, each loaded because the one before needs it. */
  ghost predicate Loads(image: Image, closure: set<string>, tree: seq<string>, bundle: map<string, string>,
                        carried: map<string, Copied>, chain: seq<string>) {
    && chain != [] && chain[0] in tree
    && forall i | 0 < i < |chain| :: Leads(image, closure, bundle, carried, chain[i - 1], chain[i])
  }

  ghost predicate Leads(image: Image, closure: set<string>, bundle: map<string, string>, carried: map<string, Copied>,
                        from: string, to: string) {
    exists name :: name in image.needed(from) && Resolve(image, closure, bundle, carried, name) == Some(to)
  }

  ghost predicate SystemFile(image: Image, closure: set<string>, path: string) {
    exists name :: FromSystem(image, closure, name) && image.libraries[name] == path
  }

  /** True dependencies are enough, because the closure follows them. */
  lemma DependsMakeItWhole(packages: Packages, baseline: seq<string>, image: Image, closure: set<string>)
    requires IsClosure(packages, baseline, closure) && DependsAreTrue(packages, image, closure)
    ensures SystemIsWhole(image, closure)
  {
    hide Means;
    forall name, need | FromSystem(image, closure, name) && need in image.needed(image.libraries[name])
      ensures FromSystem(image, closure, need)
    {
      var p := image.owner(image.libraries[name]).value;
      assert LinkedInside(packages, image, p, need);
      var q := image.owner(image.libraries[need]).value;
      if q != p {
        var d :| d in packages[p].depends && Means(packages, d, q);
      }
    }
  }

  /** Everything a chain loads is the release's or the system's, or needs nothing. */
  lemma {:induction false} ChainEnd(image: Image, closure: set<string>, tree: seq<string>, bundle: map<string, string>,
                                    carried: map<string, Copied>, chain: seq<string>)
    requires IsCarried(image, closure, bundle.Keys, tree, carried.Keys) && BundledIn(image, tree, bundle)
    requires forall name | name in carried :: name in image.libraries && carried[name] == CopyOf(image, name)
    requires Loads(image, closure, tree, bundle, carried, chain)
    ensures var file := chain[|chain| - 1];
      file in Loaded(image, tree, carried.Keys) || image.needed(file) == [] || SystemFile(image, closure, file)
    decreases |chain|
  {
    hide IsCarried;
    if |chain| > 1 {
      var n := |chain| - 1;
      assert Leads(image, closure, bundle, carried, chain[n - 1], chain[n]);
      var name :| name in image.needed(chain[n - 1])
        && Resolve(image, closure, bundle, carried, name) == Some(chain[n]);
    }
  }

  /** The whole of it: when nothing is left unmet and the closure's libraries need only
      each other, every library that any binary of the release loads, however far
      down, is found on a system that has only the packages of the closure. */
  lemma EveryLoadResolves(image: Image, closure: set<string>, tree: seq<string>,
                          bundle: map<string, string>, carried: map<string, Copied>, chain: seq<string>, name: string)
    requires SystemIsWhole(image, closure)
    requires IsCarried(image, closure, bundle.Keys, tree, carried.Keys) && BundledIn(image, tree, bundle)
    requires forall name | name in carried :: name in image.libraries && carried[name] == CopyOf(image, name)
    requires AllUnmet(image, bundle.Keys, tree, carried.Keys, [])
    requires Loads(image, closure, tree, bundle, carried, chain) && name in image.needed(chain[|chain| - 1])
    ensures Resolve(image, closure, bundle, carried, name).Some?
    ensures name !in bundle && name !in carried ==>
      name in image.libraries && exists p :: image.owner(image.libraries[name]) == Some(p) && p in closure
  {
    hide SystemIsWhole, BundledIn, Loaded, SystemFile;
    var file := chain[|chain| - 1];
    ChainEnd(image, closure, tree, bundle, carried, chain);
    if file in Loaded(image, tree, carried.Keys) {
      assert !Unmet(image, bundle.Keys, tree, carried.Keys, file, name);
    } else {
      SystemNeedsSystem(image, closure, file, name);
    }
  }

  lemma SystemNeedsSystem(image: Image, closure: set<string>, path: string, need: string)
    requires SystemIsWhole(image, closure) && SystemFile(image, closure, path) && need in image.needed(path)
    ensures FromSystem(image, closure, need)
  {
    var name :| FromSystem(image, closure, name) && image.libraries[name] == path;
  }

  /** And nothing less does: with fewer libraries some file of the release needs one
      that is not found. */
  lemma FewerDoNotResolve(image: Image, closure: set<string>, tree: seq<string>, bundle: map<string, string>,
                          carried: map<string, Copied>, fewer: map<string, Copied>)
    requires IsCarried(image, closure, bundle.Keys, tree, carried.Keys) && fewer.Keys < carried.Keys
    ensures exists path, name ::
      (path in Loaded(image, tree, fewer.Keys) && name in image.needed(path)
        && Resolve(image, closure, bundle, fewer, name).None?)
  {
    hide Loaded;
    assert !CarryClosed(image, closure, bundle.Keys, tree, fewer.Keys);
    var path, name :| path in Loaded(image, tree, fewer.Keys) && name in image.needed(path)
      && ToCarry(image, closure, bundle.Keys, name) && name !in fewer.Keys;
    assert Resolve(image, closure, bundle, fewer, name).None?;
  }
}
