/** The store in which a Browser Player remembers the last commands of a Screen
    (apps/player-web/src/commands.ts): what one write keeps and drops, and which
    commands any sequence of writes leaves. */
module Commands {
  import opened Text

  const REMEMBERED := 200

  datatype CommandResult = CommandResult(success: bool, code: string, message: string)

  const INTERRUPTED := CommandResult(false, "interrupted", "The Browser Player restarted while it ran this command.")

  datatype Status = Running | Done

  datatype Stored = Stored(commandId: string, kind: string, status: Status, outcome: Option<CommandResult>, at: int)

  type Records = map<string, Stored>

  // ---- what is remembered ------------------------------------------------------------

  /** The order surplus records are dropped in: by time, and by key at one time. */
  predicate Older(records: Records, a: string, b: string)
    requires a in records && b in records
  {
    records[a].at < records[b].at || (records[a].at == records[b].at && Less(a, b))
  }

  function Newer(records: Records, key: string): set<string>
    requires key in records
  {
    set k | k in records && Older(records, key, k)
  }

  /** The newest records of a slot, no more than are remembered. */
  function Remembered(records: Records): Records {
    map key | key in records && |Newer(records, key)| < REMEMBERED :: records[key]
  }

  function Put(records: Records, key: string, entry: Stored): Records {
    Remembered(records[key := entry])
  }

  /** The commands of one slot; `written` is everything written since it was last
      empty. */
  class CommandStore {
    var records: Records
    ghost var written: seq<Writing>

    ghost predicate Valid()
      reads this
    {
      records == Replay(written)
    }

    constructor ()
      ensures Valid() && written == []
    {
      records, written := map[], [];
    }

    /** On a clock that moves forward: what was last written for the key, exactly as
        long as fewer than 200 others have been written since. */
    method Get(key: string) returns (known: Option<Stored>)
      requires Valid()
      ensures LaterEachTime(written) ==>
        known == if Kept(written, key) then LastEntry(written, key) else None
    {
      known := if key in records then Some(records[key]) else None;
      if LaterEachTime(written) {
        KeepsTheMostRecent(written);
      }
    }

    /** Writes the record, then deletes the oldest ones that are too many. */
    method Write(key: string, entry: Stored)
      requires Valid()
      modifies this
      ensures Valid() && written == old(written) + [Writing(key, entry)]
      ensures records == Put(old(records), key, entry) && |records| <= 200
    {
      hide Put;
      JustWrittenIsKept(records, key, entry);
      OneMoreReplayed(written, Writing(key, entry));
      written := written + [Writing(key, entry)];
      records := DropSurplus(records[key := entry]);
      assert records == Put(old(records), key, entry) by { PutIs(old(records), key, entry); }
    }

    /** Forgets every command of the slot, as if none had ever been delivered. */
    method Clear()
      modifies this
      ensures Valid() && forall key :: !Kept(written, key)
    {
      records, written := map[], [];
    }
  }

  lemma PutIs(records: Records, key: string, entry: Stored)
    ensures Put(records, key, entry) == Remembered(records[key := entry])
  {
  }

  /** Lists the records by time and deletes the first ones, as many as are too many. */
  method DropSurplus(all: Records) returns (kept: Records)
    ensures kept == Remembered(all)
  {
    hide Remembered;
    var listed := SortByTime(all);
    var surplus := if |listed| > REMEMBERED then |listed| - REMEMBERED else 0;
    kept := all;
    for n := 0 to surplus
      invariant kept == All(all, listed[n..])
    {
      DropFirst(all, listed, n);
      kept := kept - {listed[n]};
    }
    SurplusIsOldest(all, listed);
  }

  ghost function All(records: Records, keys: seq<string>): Records {
    map key | key in records && key in keys :: records[key]
  }

  /** A listing of every record, oldest first. */
  ghost predicate ByTime(records: Records, keys: seq<string>) {
    && Elements(keys) <= records.Keys
    && forall i, j | 0 <= i < j < |keys| :: keys[i] in records && keys[j] in records && Older(records, keys[i], keys[j])
  }

  /** `getAll` lists by key, and sorting by time keeps that order between equals. */
  method SortByTime(records: Records) returns (sorted: seq<string>)
    ensures ByTime(records, sorted) && Elements(sorted) == records.Keys
  {
    hide Older, Less;
    var names := SortNames(records.Keys);
    sorted := [];
    for i := 0 to |names|
      invariant ByTime(records, sorted) && Elements(sorted) == Elements(names[..i])
    {
      assert names[..i + 1] == names[..i] + [names[i]];
      assert names[i] in Elements(names);
      forall key | key in sorted ensures Less(key, names[i]) {
        assert key in Elements(names[..i]);
        var j :| 0 <= j < i && names[j] == key;
      }
      ElementsAppend(names[..i], names[i]);
      sorted := InsertByTime(records, sorted, names[i]);
    }
    assert names[..|names|] == names;
  }

  method InsertByTime(records: Records, keys: seq<string>, key: string) returns (longer: seq<string>)
    requires ByTime(records, keys) && key in records && forall k | k in keys :: Less(k, key)
    ensures ByTime(records, longer) && Elements(longer) == Elements(keys) + {key}
  {
    hide Older, Less;
    Listed(records, keys);
    var i := |keys|;
    while i > 0 && records[keys[i - 1]].at > records[key].at
      invariant 0 <= i <= |keys|
      invariant forall j | i <= j < |keys| :: records[keys[j]].at > records[key].at
    {
      i := i - 1;
    }
    longer := keys[..i] + [key] + keys[i..];
    InsertedInOrder(records, keys, key, i);
  }

  lemma Listed(records: Records, keys: seq<string>)
    requires ByTime(records, keys)
    ensures forall j | 0 <= j < |keys| :: keys[j] in records
  {
    forall j | 0 <= j < |keys| ensures keys[j] in records {
      assert keys[j] in Elements(keys);
    }
  }

  lemma InsertedInOrder(records: Records, keys: seq<string>, key: string, i: nat)
    requires ByTime(records, keys) && key in records && i <= |keys|
    requires forall j | 0 <= j < |keys| :: keys[j] in records && Less(keys[j], key)
    requires forall j | i <= j < |keys| :: records[keys[j]].at > records[key].at
    requires i > 0 ==> records[keys[i - 1]].at <= records[key].at
    ensures ByTime(records, keys[..i] + [key] + keys[i..])
    ensures Elements(keys[..i] + [key] + keys[i..]) == Elements(keys) + {key}
  {
    hide Older, ByTime;
    forall j | 0 <= j < i ensures Older(records, keys[j], key) {
      Below(records, keys, key, i, j);
    }
    forall j | i <= j < |keys| ensures Older(records, key, keys[j]) {
      Above(records, key, keys[j]);
    }
    InOrder(records, keys, key, i);
    InsertedElements(keys, key, i);
  }

  lemma InsertedElements(keys: seq<string>, key: string, i: nat)
    requires i <= |keys|
    ensures Elements(keys[..i] + [key] + keys[i..]) == Elements(keys) + {key}
  {
    assert keys == keys[..i] + keys[i..];
  }

  lemma Below(records: Records, keys: seq<string>, key: string, i: nat, j: nat)
    requires ByTime(records, keys) && key in records && j < i <= |keys| && keys[j] in records && keys[i - 1] in records
    requires records[keys[i - 1]].at <= records[key].at && Less(keys[j], key)
    ensures Older(records, keys[j], key)
  {
    hide Less;
    if j < i - 1 { assert Older(records, keys[j], keys[i - 1]); }
  }

  lemma Above(records: Records, key: string, k: string)
    requires key in records && k in records && records[k].at > records[key].at
    ensures Older(records, key, k)
  {
  }

  lemma InOrder(records: Records, keys: seq<string>, key: string, i: nat)
    requires ByTime(records, keys) && key in records && i <= |keys|
    requires forall j | 0 <= j < i :: keys[j] in records && Older(records, keys[j], key)
    requires forall j | i <= j < |keys| :: keys[j] in records && Older(records, key, keys[j])
    ensures ByTime(records, keys[..i] + [key] + keys[i..])
  {
    hide Older;
    var longer := keys[..i] + [key] + keys[i..];
    forall a, b | 0 <= a < b < |longer|
      ensures longer[a] in records && longer[b] in records && Older(records, longer[a], longer[b])
    {
      assert longer[a] == if a < i then keys[a] else if a == i then key else keys[a - 1];
      assert longer[b] == if b < i then keys[b] else if b == i then key else keys[b - 1];
    }
    forall k | k in longer ensures k in records {}
  }

  lemma OlderIsStrict(records: Records, a: string, b: string)
    requires a in records && b in records
    ensures !(Older(records, a, b) && Older(records, b, a)) && !Older(records, a, a)
    ensures a != b ==> Older(records, a, b) || Older(records, b, a)
  {
    LessIsStrict(a, b);
    LessIsTotal(a, b);
  }

  lemma Apart(records: Records, keys: seq<string>, i: nat, j: nat)
    requires ByTime(records, keys) && i < j < |keys|
    ensures keys[i] != keys[j]
  {
    OlderIsStrict(records, keys[i], keys[j]);
  }

  lemma {:induction false} CountOf(records: Records, keys: seq<string>)
    requires ByTime(records, keys)
    ensures |Elements(keys)| == |keys|
  {
    hide Older;
    EmptyElements(keys);
    if keys != [] {
      var n := |keys| - 1;
      var front := keys[..n];
      assert keys == front + [keys[n]];
      ElementsAppend(front, keys[n]);
      CountOf(records, front);
      forall j | 0 <= j < n ensures front[j] != keys[n] {
        Apart(records, keys, j, n);
      }
      assert keys[n] !in Elements(front);
    }
  }

  lemma DropFirst(records: Records, keys: seq<string>, n: nat)
    requires ByTime(records, keys) && n < |keys|
    ensures All(records, keys[n + 1..]) == All(records, keys[n..]) - {keys[n]}
  {
    hide Older;
    var rest := keys[n + 1..];
    forall j | 0 <= j < |rest| ensures rest[j] != keys[n] {
      Apart(records, keys, n, n + 1 + j);
    }
    assert keys[n..] == [keys[n]] + rest;
    DropOne(records, keys[n], rest);
  }

  lemma DropOne(records: Records, key: string, rest: seq<string>)
    requires key !in rest
    ensures All(records, rest) == All(records, [key] + rest) - {key}
  {
  }

  lemma NewerOf(records: Records, keys: seq<string>, i: nat)
    requires ByTime(records, keys) && Elements(keys) == records.Keys && i < |keys|
    ensures keys[i] in records && |Newer(records, keys[i])| == |keys| - 1 - i
  {
    assert keys[i] in Elements(keys);
    var rest := keys[i + 1..];
    forall k ensures k in Newer(records, keys[i]) <==> k in Elements(rest) {
      if k in Newer(records, keys[i]) {
        assert k in Elements(keys);
        var j :| 0 <= j < |keys| && keys[j] == k;
        OlderIsStrict(records, keys[i], k);
        assert j > i;
        assert rest[j - i - 1] == k;
      }
    }
    assert Newer(records, keys[i]) == Elements(rest);
    assert Elements(rest) <= Elements(keys);
    CountOf(records, rest);
  }

  lemma SurplusIsOldest(records: Records, keys: seq<string>)
    requires ByTime(records, keys) && Elements(keys) == records.Keys
    ensures All(records, keys[if |keys| > REMEMBERED then |keys| - REMEMBERED else 0..]) == Remembered(records)
  {
    hide Older;
    var from := if |keys| > REMEMBERED then |keys| - REMEMBERED else 0;
    forall key | key in records ensures key in keys[from..] <==> |Newer(records, key)| < REMEMBERED {
      assert key in Elements(keys);
      var i :| 0 <= i < |keys| && keys[i] == key;
      NewerOf(records, keys, i);
      if i >= from {
        assert keys[from..][i - from] == key;
      }
      if key in keys[from..] {
        var j :| 0 <= j < |keys[from..]| && keys[from..][j] == key;
        NewerOf(records, keys, from + j);
      }
    }
  }

  /** At most 200 records are left, and the one just written is among them unless
      200 others carry a later time, as they may when the clock was set back. */
  lemma JustWrittenIsKept(records: Records, key: string, entry: Stored)
    ensures |Put(records, key, entry)| <= 200
    ensures key in Put(records, key, entry) <==> |Newer(records[key := entry], key)| < 200
    ensures (forall k | k in records && k != key :: records[k].at < entry.at) ==> key in Put(records, key, entry)
  {
    hide Less, Older, Remembered;
    var all := records[key := entry];
    NoMoreThanRemembered(all);
    assert key in Put(records, key, entry) <==> |Newer(all, key)| < REMEMBERED by { RememberedKeys(all, key); }
    if forall k | k in records && k != key :: records[k].at < entry.at {
      LatestIsNewest(all, key);
    }
  }

  lemma RememberedKeys(records: Records, key: string)
    requires key in records
    ensures key in Remembered(records) <==> |Newer(records, key)| < REMEMBERED
  {
    hide Older;
  }

  lemma LatestIsNewest(records: Records, key: string)
    requires key in records && forall k | k in records && k != key :: records[k].at < records[key].at
    ensures Newer(records, key) == {}
  {
    hide Less;
    OlderIsStrict(records, key, key);
  }

  lemma NoMoreThanRemembered(records: Records)
    ensures |Remembered(records)| <= REMEMBERED
  {
    hide Older, Less, Newer;
    var keys := Listing(records, records.Keys);
    var from := if |keys| > REMEMBERED then |keys| - REMEMBERED else 0;
    SurplusIsOldest(records, keys);
    LastOnes(records, keys, from);
    hide Remembered;
    assert All(records, keys[from..]).Keys == Elements(keys[from..]);
    CountOf(records, keys[from..]);
  }

  lemma LastOnes(records: Records, keys: seq<string>, from: nat)
    requires ByTime(records, keys) && from <= |keys|
    ensures ByTime(records, keys[from..]) && All(records, keys[from..]).Keys == Elements(keys[from..])
  {
    hide Older;
    assert Elements(keys[from..]) <= Elements(keys);
  }

  /** Two hundred records from before the clock was set back: the next command
      written is forgotten at once. */
  lemma SetBackClockForgets(records: Records, key: string, entry: Stored)
    requires |records| == 200 && key !in records
    requires forall k | k in records :: entry.at < records[k].at
    ensures Put(records, key, entry) == records
  {
    hide Less;
    var all := records[key := entry];
    assert Newer(all, key) == records.Keys by { OlderIsStrict(all, key, key); }
    forall k | k in records ensures |Newer(all, k)| < REMEMBERED {
      OlderIsStrict(all, k, k);
      assert Newer(all, k) <= records.Keys - {k};
      SmallerSet(Newer(all, k), records.Keys - {k});
    }
  }

  /** Every set of records has a listing by time. */
  lemma {:induction false} Listing(records: Records, keys: set<string>) returns (sorted: seq<string>)
    requires keys <= records.Keys
    ensures ByTime(records, sorted) && Elements(sorted) == keys
  {
    if keys == {} {
      sorted := [];
    } else {
      var newest := NewestOf(records, keys);
      var rest := Listing(records, keys - {newest});
      sorted := rest + [newest];
      forall k | k in rest ensures k in keys - {newest} { assert k in Elements(rest); }
      ElementsAppend(rest, newest);
    }
  }

  lemma {:induction false} NewestOf(records: Records, keys: set<string>) returns (newest: string)
    requires keys != {} && keys <= records.Keys
    ensures newest in keys && forall k | k in keys - {newest} :: Older(records, k, newest)
  {
    newest :| newest in keys;
    if keys != {newest} {
      var other := NewestOf(records, keys - {newest});
      OlderIsStrict(records, newest, other);
      forall k | k in keys && Older(records, other, newest) && k != newest && k != other
        ensures Older(records, k, newest)
      {
        OlderIsTransitive(records, k, other, newest);
      }
      if Older(records, newest, other) { newest := other; }
    }
  }

  lemma OlderIsTransitive(records: Records, a: string, b: string, c: string)
    requires a in records && b in records && c in records && Older(records, a, b) && Older(records, b, c)
    ensures Older(records, a, c)
  {
    if Less(a, b) && Less(b, c) { LessIsTransitive(a, b, c); }
  }

  // ---- which commands a sequence of writes leaves ------------------------------------------

  datatype Writing = Writing(key: string, entry: Stored)

  function Replay(writes: seq<Writing>): Records {
    if writes == [] then map[]
    else
      var last := writes[|writes| - 1];
      Put(Replay(writes[..|writes| - 1]), last.key, last.entry)
  }

  lemma OneMoreReplayed(writes: seq<Writing>, w: Writing)
    ensures Replay(writes + [w]) == Put(Replay(writes), w.key, w.entry)
  {
    hide Put;
    assert (writes + [w])[..|writes|] == writes;
  }

  ghost function KeysOf(writes: seq<Writing>): set<string> { set w | w in writes :: w.key }

  /** The keys written since a key was last written. */
  ghost function Since(writes: seq<Writing>, key: string): set<string> {
    if writes == [] then {}
    else
      var last := writes[|writes| - 1];
      if last.key == key then {} else Since(writes[..|writes| - 1], key) + {last.key}
  }

  ghost function LastEntry(writes: seq<Writing>, key: string): Option<Stored> {
    if writes == [] then None
    else
      var last := writes[|writes| - 1];
      if last.key == key then Some(last.entry) else LastEntry(writes[..|writes| - 1], key)
  }

  ghost predicate LaterEachTime(writes: seq<Writing>) {
    forall i, j | 0 <= i < j < |writes| :: writes[i].entry.at < writes[j].entry.at
  }

  ghost predicate Kept(writes: seq<Writing>, key: string) {
    key in KeysOf(writes) && |Since(writes, key)| < 200
  }

  ghost predicate MostRecent(writes: seq<Writing>, records: Records) {
    && (forall key :: key in records <==> Kept(writes, key))
    && (forall key | key in records :: LastEntry(writes, key) == Some(records[key]))
    && (forall j, k | j in records && k in records :: j in Since(writes, k) <==> records[k].at < records[j].at)
    && (forall j, k | j in records && k in records && records[j].at == records[k].at :: j == k)
  }

  /** With a later time on each write, the store holds exactly the keys that fewer
      than 200 others were written after, each with what was last written for it. */
  lemma {:induction false} KeepsTheMostRecent(writes: seq<Writing>)
    requires LaterEachTime(writes)
    ensures MostRecent(writes, Replay(writes))
  {
    hide Put, MostRecent;
    if writes == [] {
      NothingWritten();
      assert writes == [];
    } else {
      var n := |writes| - 1;
      var front, w := writes[..n], writes[n];
      KeepsTheMostRecent(front);
      assert writes == front + [w];
      forall key | key in Replay(front) ensures Replay(front)[key].at < w.entry.at {
        KeptEntry(front, Replay(front), key);
      }
      OneMoreWrite(front, Replay(front), w);
    }
  }

  lemma NothingWritten()
    ensures MostRecent([], map[])
  {
  }

  lemma KeptEntry(writes: seq<Writing>, records: Records, key: string)
    requires MostRecent(writes, records) && key in records
    ensures exists i :: 0 <= i < |writes| && records[key] == writes[i].entry
  {
    LastIsWritten(writes, key);
  }

  lemma {:induction false} LastIsWritten(writes: seq<Writing>, key: string)
    requires LastEntry(writes, key).Some?
    ensures exists i :: 0 <= i < |writes| && LastEntry(writes, key).value == writes[i].entry
  {
    var n := |writes| - 1;
    if writes[n].key != key {
      LastIsWritten(writes[..n], key);
      var i :| 0 <= i < n && LastEntry(writes, key).value == writes[..n][i].entry;
      assert writes[i].entry == writes[..n][i].entry;
    }
  }

  /** What was written after a later key was written after an earlier one too. */
  lemma {:induction false} SinceNests(writes: seq<Writing>, j: string, k: string)
    requires j in Since(writes, k)
    ensures Since(writes, j) <= Since(writes, k) && j in KeysOf(writes)
  {
    var n := |writes| - 1;
    assert writes == writes[..n] + [writes[n]];
    if writes[n].key != j {
      SinceNests(writes[..n], j, k);
    }
  }

  lemma SmallerSet(a: set<string>, b: set<string>)
    requires a <= b
    ensures |a| <= |b|
  {
    assert b == a + (b - a);
  }

  lemma NewerIsSince(writes: seq<Writing>, records: Records, key: string)
    requires MostRecent(writes, records) && key in records
    ensures Newer(records, key) == Since(writes, key)
  {
    hide Since, KeysOf, Less;
    OlderIsStrict(records, key, key);
    forall j | j in Since(writes, key) ensures j in Newer(records, key) {
      SinceNests(writes, j, key);
      SmallerSet(Since(writes, j), Since(writes, key));
      assert Kept(writes, j);
    }
  }

  lemma OneMoreWrite(front: seq<Writing>, records: Records, w: Writing)
    requires MostRecent(front, records) && forall key | key in records :: records[key].at < w.entry.at
    ensures MostRecent(front + [w], Put(records, w.key, w.entry))
  {
    hide MostRecent, Less, Since, KeysOf, LastEntry, Older;
    var writes, all := front + [w], records[w.key := w.entry];
    forall key ensures key in Put(records, w.key, w.entry) <==> Kept(writes, key) {
      WriteKeeps(front, records, w, key);
    }
    forall j, k | j in Put(records, w.key, w.entry) && k in Put(records, w.key, w.entry)
      ensures j in Since(writes, k) <==> all[k].at < all[j].at
      ensures all[j].at == all[k].at ==> j == k
    {
      WriteOrders(front, records, w, j, k);
    }
    forall key | key in Put(records, w.key, w.entry) ensures LastEntry(writes, key) == Some(all[key]) {
      WriteRecords(front, records, w, key);
    }
    Recent(writes, Put(records, w.key, w.entry));
  }

  lemma Recent(writes: seq<Writing>, records: Records)
    requires forall key :: key in records <==> Kept(writes, key)
    requires forall key | key in records :: LastEntry(writes, key) == Some(records[key])
    requires forall j, k | j in records && k in records :: j in Since(writes, k) <==> records[k].at < records[j].at
    requires forall j, k | j in records && k in records && records[j].at == records[k].at :: j == k
    ensures MostRecent(writes, records)
  {
  }

  lemma WriteKeeps(front: seq<Writing>, records: Records, w: Writing, key: string)
    requires MostRecent(front, records) && forall key | key in records :: records[key].at < w.entry.at
    ensures key in Put(records, w.key, w.entry) <==> Kept(front + [w], key)
  {
    hide LastEntry, Newer, KeysOf, MostRecent, Since;
    var all := records[w.key := w.entry];
    OneMoreKey(front, w, key);
    if key == w.key {
      NothingNewer(records, w);
    } else if key in records {
      KeptBefore(front, records, key);
      NewerIsSince(front, records, key);
      OneNewer(records, w, key);
    } else if key in KeysOf(front) {
      NotKeptBefore(front, records, key);
      SmallerSet(Since(front, key), Since(front + [w], key));
    }
  }

  lemma KeptBefore(front: seq<Writing>, records: Records, key: string)
    requires MostRecent(front, records) && key in records
    ensures key in KeysOf(front)
  {
    assert Kept(front, key);
  }

  lemma NotKeptBefore(front: seq<Writing>, records: Records, key: string)
    requires MostRecent(front, records) && key !in records
    ensures !Kept(front, key)
  {
  }

  lemma OneMoreKey(front: seq<Writing>, w: Writing, key: string)
    ensures KeysOf(front + [w]) == KeysOf(front) + {w.key}
    ensures Since(front + [w], key) == if key == w.key then {} else Since(front, key) + {w.key}
  {
    assert (front + [w])[..|front|] == front && (front + [w])[|front|] == w;
    forall v | v in front ensures v in front + [w] {}
  }

  lemma NothingNewer(records: Records, w: Writing)
    requires forall key | key in records :: records[key].at < w.entry.at
    ensures Newer(records[w.key := w.entry], w.key) == {}
  {
    hide Less;
    OlderIsStrict(records[w.key := w.entry], w.key, w.key);
  }

  lemma OneNewer(records: Records, w: Writing, key: string)
    requires key in records && key != w.key && forall key | key in records :: records[key].at < w.entry.at
    ensures Newer(records[w.key := w.entry], key) == Newer(records, key) + {w.key}
  {
    hide Less;
  }

  lemma WriteOrders(front: seq<Writing>, records: Records, w: Writing, j: string, k: string)
    requires MostRecent(front, records) && forall key | key in records :: records[key].at < w.entry.at
    requires j in records[w.key := w.entry] && k in records[w.key := w.entry]
    ensures var all := records[w.key := w.entry];
      && (j in Since(front + [w], k) <==> all[k].at < all[j].at)
      && (all[j].at == all[k].at ==> j == k)
  {
    hide LastEntry, KeysOf;
    assert (front + [w])[..|front|] == front;
  }

  lemma WriteRecords(front: seq<Writing>, records: Records, w: Writing, key: string)
    requires MostRecent(front, records) && key in records[w.key := w.entry]
    ensures LastEntry(front + [w], key) == Some(records[w.key := w.entry][key])
  {
    hide KeysOf, Since;
    assert (front + [w])[..|front|] == front;
  }
}
