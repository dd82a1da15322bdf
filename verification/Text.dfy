/** String facts the release scripts lean on: the order Python sorts names in,
    and cutting a string at the first occurrence of a separator. */
module Text {

  datatype Option<+T> = None | Some(value: T)

  datatype Result<+T, +E> = Ok(value: T) | Err(error: E)

  // ---- the order of names -----------------------------------------------------

  /** Strict lexicographic order by code point, Python's `<` on `str`. */
  predicate Less(a: string, b: string) {
    if b == "" then false
    else if a == "" then true
    else a[0] < b[0] || (a[0] == b[0] && Less(a[1..], b[1..]))
  }

  lemma LessIsStrict(a: string, b: string)
    ensures !(Less(a, b) && Less(b, a))
    ensures !Less(a, a)
  {
  }

  lemma LessIsTotal(a: string, b: string)
    ensures a == b || Less(a, b) || Less(b, a)
  {
    if a != "" && b != "" && a[0] == b[0] {
      LessIsTotal(a[1..], b[1..]);
      assert a == [a[0]] + a[1..] && b == [b[0]] + b[1..];
    }
  }

  lemma LessIsTransitive(a: string, b: string, c: string)
    requires Less(a, b) && Less(b, c)
    ensures Less(a, c)
  {
  }

  /** One name sorts before another exactly when they agree up to a place where the
      first ends, or has the smaller character. */
  lemma {:induction false} LessExactly(a: string, b: string)
    ensures Less(a, b) <==> exists n: nat :: DiffersAt(a, b, n)
  {
    if a != "" && b != "" && a[0] == b[0] {
      LessExactly(a[1..], b[1..]);
      if Less(a[1..], b[1..]) {
        var n: nat :| DiffersAt(a[1..], b[1..], n);
        assert a[..n + 1] == [a[0]] + a[1..][..n] && b[..n + 1] == [b[0]] + b[1..][..n];
        assert DiffersAt(a, b, n + 1);
      }
      if exists n: nat :: DiffersAt(a, b, n) {
        var n: nat :| DiffersAt(a, b, n);
        assert n > 0;
        assert a[1..][..n - 1] == a[..n][1..] && b[1..][..n - 1] == b[..n][1..];
        assert DiffersAt(a[1..], b[1..], n - 1);
      }
    } else {
      if Less(a, b) { assert DiffersAt(a, b, 0); }
      if exists n: nat :: DiffersAt(a, b, n) {
        var n: nat :| DiffersAt(a, b, n);
        SameHead(a, b, n);
      }
    }
  }

  lemma SameHead(a: string, b: string, n: nat)
    requires DiffersAt(a, b, n)
    ensures n > 0 ==> a != "" && b != "" && a[0] == b[0]
  {
    if n > 0 { assert a[..n][0] == a[0] && b[..n][0] == b[0]; }
  }

  predicate DiffersAt(a: string, b: string, n: nat) {
    n <= |a| && n < |b| && a[..n] == b[..n] && (n < |a| ==> a[n] < b[n])
  }

  ghost predicate Ascending(names: seq<string>) {
    forall i, j | 0 <= i < j < |names| :: Less(names[i], names[j])
  }

  ghost function Elements<T>(items: seq<T>): set<T> {
    set item | item in items
  }

  lemma EmptyElements<T>(items: seq<T>)
    ensures Elements(items) == {} <==> items == []
  {
    if items != [] { assert items[0] in Elements(items); }
  }

  lemma ElementsAppend<T>(items: seq<T>, item: T)
    ensures Elements(items + [item]) == Elements(items) + {item}
  {
  }

  /** A set has one ascending listing, so anything computed from the listing is
      a function of the set. */
  lemma {:induction false} AscendingIsUnique(a: seq<string>, b: seq<string>)
    requires Ascending(a) && Ascending(b) && Elements(a) == Elements(b)
    ensures a == b
  {
    EmptyElements(a);
    EmptyElements(b);
    if a != [] {
      FirstIsLeast(a, b[0]);
      FirstIsLeast(b, a[0]);
      LessIsStrict(a[0], b[0]);
      RestElements(a);
      RestElements(b);
      AscendingIsUnique(a[1..], b[1..]);
      assert a == [a[0]] + a[1..] && b == [b[0]] + b[1..];
    }
  }

  lemma FirstIsLeast(names: seq<string>, x: string)
    requires names != [] && Ascending(names)
    ensures x in Elements(names) ==> x == names[0] || Less(names[0], x)
    ensures x !in Elements(names) ==> x != names[0]
  {
  }

  lemma RestElements(names: seq<string>)
    requires names != [] && Ascending(names)
    ensures Elements(names[1..]) == Elements(names) - {names[0]}
    ensures Ascending(names[1..])
  {
    forall x | x in names[1..] ensures x != names[0] {
      LessIsStrict(x, x);
    }
    forall x | x in names && x != names[0] ensures x in names[1..] {
      var i :| 0 <= i < |names| && names[i] == x;
      assert names[1..][i - 1] == x;
    }
  }

  /** `sorted(names)`: the ascending listing of a set. */
  method SortNames(names: set<string>) returns (sorted: seq<string>)
    ensures Ascending(sorted) && Elements(sorted) == names
  {
    sorted := [];
    var rest := names;
    while rest != {}
      invariant rest <= names
      invariant Ascending(sorted) && Elements(sorted) == names - rest
    {
      var name :| name in rest;
      sorted := Insert(sorted, name);
      rest := rest - {name};
    }
  }

  method Insert(names: seq<string>, name: string) returns (longer: seq<string>)
    requires Ascending(names) && name !in names
    ensures Ascending(longer) && Elements(longer) == Elements(names) + {name}
  {
    var i := 0;
    while i < |names| && Less(names[i], name)
      invariant 0 <= i <= |names|
      invariant forall j | 0 <= j < i :: Less(names[j], name)
    {
      i := i + 1;
    }
    forall j | i <= j < |names| ensures Less(name, names[j]) {
      LessIsTotal(names[i], name);
      if i < j { LessIsTransitive(name, names[i], names[j]); }
    }
    longer := names[..i] + [name] + names[i..];
    Between(names, i, name);
  }

  /** A name keeps its place in an ascending listing. */
  lemma Between(names: seq<string>, i: nat, name: string)
    requires Ascending(names) && i <= |names|
    requires forall j | 0 <= j < i :: Less(names[j], name)
    requires forall j | i <= j < |names| :: Less(name, names[j])
    ensures var longer := names[..i] + [name] + names[i..];
      Ascending(longer) && Elements(longer) == Elements(names) + {name}
  {
    hide Less;
    assert names == names[..i] + names[i..];
  }

  /** The ascending listing as a function, for specifications. */
  ghost function Sorted(names: set<string>): (sorted: seq<string>)
    ensures Ascending(sorted) && Elements(sorted) == names
  {
    SortedExists(names);
    var sorted :| Ascending(sorted) && Elements(sorted) == names;
    sorted
  }

  lemma {:induction false} SortedExists(names: set<string>)
    ensures exists sorted :: Ascending(sorted) && Elements(sorted) == names
  {
    if names == {} {
      assert Ascending([]) && Elements<string>([]) == names;
    } else {
      var least := Least(names);
      SortedExists(names - {least});
      var rest :| Ascending(rest) && Elements(rest) == names - {least};
      var sorted := [least] + rest;
      assert forall i | 0 <= i < |rest| :: rest[i] in Elements(rest);
      assert Ascending(sorted);
      assert Elements(sorted) == Elements(rest) + {least};
    }
  }

  lemma {:induction false} Least(names: set<string>) returns (least: string)
    requires names != {}
    ensures least in names
    ensures forall name | name in names - {least} :: Less(least, name)
  {
    var name :| name in names;
    if names == {name} {
      least := name;
    } else {
      var other := Least(names - {name});
      LessIsTotal(name, other);
      least := if Less(name, other) then name else other;
      forall x | x in names - {least} ensures Less(least, x) {
        if x != other && x != name && least == name { LessIsTransitive(name, other, x); }
      }
    }
  }

  // ---- cutting at a separator ---------------------------------------------------

  /** The text before the first `c`, or all of it. */
  function Before(s: string, c: char): (head: string)
    ensures c !in head && head <= s
    ensures |head| < |s| ==> s[|head|] == c
  {
    if s == "" || s[0] == c then "" else [s[0]] + Before(s[1..], c)
  }

  /** The text after the first `c`, or nothing. */
  function After(s: string, c: char): string {
    var head := Before(s, c);
    if |head| < |s| then s[|head| + 1..] else ""
  }

  lemma {:induction false} BeforeIsFirst(head: string, c: char, tail: string)
    requires c !in head
    ensures Before(head + [c] + tail, c) == head
    ensures After(head + [c] + tail, c) == tail
  {
    var s := head + [c] + tail;
    var cut := Before(s, c);
    assert s[|head|] == c && cut == s[..|cut|];
    assert forall i | 0 <= i < |head| :: s[i] == head[i];
    assert |cut| == |head|;
  }

  lemma {:induction false} BeforeIsAll(s: string, c: char)
    requires c !in s
    ensures Before(s, c) == s && After(s, c) == ""
  {
  }

  /** Two texts cut at the same separator agree on both sides. */
  lemma CutIsUnique(a: string, b: string, c: char, x: string, y: string)
    requires c !in a && c !in b
    requires a + [c] + x == b + [c] + y
    ensures a == b && x == y
  {
    BeforeIsFirst(a, c, x);
    BeforeIsFirst(b, c, y);
  }
}
