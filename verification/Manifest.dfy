/** The manifest reader of the build file: a flattener that passes its accumulator array to the
    recursive call, which pushes into it, before concatenating what the call returns. */
module Manifest {
  import opened Wrappers
  import Text

  // ---------- the keys of an object ----------

  /** A property name that a JavaScript object lists before all others, in numeric order. */
  predicate IsIndex(s: string) {
    s != "" && (forall i :: 0 <= i < |s| ==> Text.Digit(s[i])) && Text.Decimal(Text.ParseNat(s)) == s
    && Text.ParseNat(s) < 0xFFFF_FFFF
  }

  function Insert(keys: seq<string>, x: string): seq<string> {
    if keys != [] && IsIndex(keys[0]) && Text.ParseNat(keys[0]) < Text.ParseNat(x)
    then [keys[0]] + Insert(keys[1..], x)
    else [x] + keys
  }

  /** Object.keys after one more assignment to a property. */
  function Put(keys: seq<string>, x: string): seq<string> {
    if x in keys then keys
    else if IsIndex(x) then Insert(keys, x)
    else keys + [x]
  }

  function PutAll(keys: seq<string>, s: seq<string>): seq<string> {
    if s == [] then keys else Put(PutAll(keys, s[..|s| - 1]), s[|s| - 1])
  }

  /** What the keys of an object are, when the strings of s are assigned in order. */
  function Keys(s: seq<string>): seq<string> { PutAll([], s) }

  /** s with only the first of equal strings kept. */
  function Dedup(s: seq<string>): seq<string> {
    if s == [] then []
    else
      var d := Dedup(s[..|s| - 1]);
      if s[|s| - 1] in d then d else d + [s[|s| - 1]]
  }

  lemma InsertElements(keys: seq<string>, x: string)
    ensures forall y :: y in Insert(keys, x) <==> y in keys || y == x
  {
    if keys != [] && IsIndex(keys[0]) && Text.ParseNat(keys[0]) < Text.ParseNat(x) {
      InsertElements(keys[1..], x);
      assert keys == [keys[0]] + keys[1..];
    }
  }

  lemma PutElements(keys: seq<string>, x: string)
    ensures forall y :: y in Put(keys, x) <==> y in keys || y == x
  {
    InsertElements(keys, x);
  }

  lemma {:induction false} PutAllElements(keys: seq<string>, s: seq<string>)
    ensures forall y :: y in PutAll(keys, s) <==> y in keys || y in s
  {
    if s != [] {
      PutAllElements(keys, s[..|s| - 1]);
      PutElements(PutAll(keys, s[..|s| - 1]), s[|s| - 1]);
      assert s == s[..|s| - 1] + [s[|s| - 1]];
    }
  }

  lemma {:induction false} PutAllSplit(keys: seq<string>, s: seq<string>, t: seq<string>)
    ensures PutAll(keys, s + t) == PutAll(PutAll(keys, s), t)
    decreases |t|
  {
    if t == [] {
      assert s + t == s;
    } else {
      PutAllSplit(keys, s, t[..|t| - 1]);
      assert (s + t)[..|s + t| - 1] == s + t[..|t| - 1];
    }
  }

  lemma {:induction false} PutAllKnown(keys: seq<string>, s: seq<string>)
    requires forall x :: x in s ==> x in keys
    ensures PutAll(keys, s) == keys
  {
    if s != [] { PutAllKnown(keys, s[..|s| - 1]); }
  }

  lemma {:induction false} InsertCommutes(keys: seq<string>, x: string, y: string)
    requires IsIndex(x) && IsIndex(y) && x != y
    ensures Insert(Insert(keys, x), y) == Insert(Insert(keys, y), x)
  {
    assert Text.ParseNat(x) != Text.ParseNat(y);
    if keys != [] && IsIndex(keys[0]) {
      InsertCommutes(keys[1..], x, y);
    }
  }

  lemma {:induction false} InsertBeforeLast(keys: seq<string>, x: string, y: string)
    requires !IsIndex(y)
    ensures Insert(keys + [y], x) == Insert(keys, x) + [y]
  {
    if keys != [] && IsIndex(keys[0]) && Text.ParseNat(keys[0]) < Text.ParseNat(x) {
      InsertBeforeLast(keys[1..], x, y);
      assert (keys + [y])[1..] == keys[1..] + [y];
    }
  }

  /** An index lands in the same place whether it is assigned before or after another name. */
  lemma PutCommutes(keys: seq<string>, x: string, y: string)
    requires IsIndex(x)
    ensures Put(Put(keys, x), y) == Put(Put(keys, y), x)
  {
    PutElements(keys, x);
    PutElements(keys, y);
    if x !in keys && y !in keys && x != y {
      if IsIndex(y) { InsertCommutes(keys, x, y); } else { InsertBeforeLast(keys, x, y); }
    }
  }

  lemma {:induction false} PutAllCommutes(keys: seq<string>, s: seq<string>, x: string)
    requires IsIndex(x)
    ensures PutAll(Put(keys, x), s) == Put(PutAll(keys, s), x)
  {
    if s != [] {
      PutAllCommutes(keys, s[..|s| - 1], x);
      PutCommutes(PutAll(keys, s[..|s| - 1]), x, s[|s| - 1]);
    }
  }

  lemma {:induction false} PutAllInsert(keys: seq<string>, k: seq<string>, x: string)
    requires IsIndex(x)
    ensures PutAll(keys, Insert(k, x)) == Put(PutAll(keys, k), x)
    decreases |k|
  {
    if k != [] && IsIndex(k[0]) && Text.ParseNat(k[0]) < Text.ParseNat(x) {
      PutAllSplit(keys, [k[0]], Insert(k[1..], x));
      PutAllInsert(PutAll(keys, [k[0]]), k[1..], x);
      PutAllSplit(keys, [k[0]], k[1..]);
      assert k == [k[0]] + k[1..];
    } else {
      PutAllSplit(keys, [x], k);
      assert PutAll(keys, [x]) == Put(keys, x) by { assert [x][..0] == []; }
      PutAllCommutes(keys, k, x);
    }
  }

  /** Reordering a list into keys first does not change the keys it adds. */
  lemma {:induction false} KeysOfKeys(keys: seq<string>, s: seq<string>)
    ensures PutAll(keys, Keys(s)) == PutAll(keys, s)
  {
    if s != [] {
      var k, x := Keys(s[..|s| - 1]), s[|s| - 1];
      KeysOfKeys(keys, s[..|s| - 1]);
      PutAllElements(keys, k);
      if x !in k {
        if IsIndex(x) { PutAllInsert(keys, k, x); } else { assert (k + [x])[..|k|] == k; }
      }
    }
  }

  // ---------- keys and first occurrences ----------

  /** Indices first, in numeric order. */
  predicate InKeyOrder(s: seq<string>) {
    forall i, j :: 0 <= i < j < |s| && IsIndex(s[j]) ==> IsIndex(s[i]) && Text.ParseNat(s[i]) < Text.ParseNat(s[j])
  }

  /** x goes before all the indices of keys. */
  predicate Leads(x: string, keys: seq<string>) {
    forall j :: 0 <= j < |keys| && IsIndex(keys[j]) ==> IsIndex(x) && Text.ParseNat(x) < Text.ParseNat(keys[j])
  }

  lemma OrderedCons(x: string, keys: seq<string>)
    ensures InKeyOrder([x] + keys) <==> InKeyOrder(keys) && Leads(x, keys)
  {
    hide IsIndex;
    var all := [x] + keys;
    assert forall i :: 0 <= i < |keys| ==> all[i + 1] == keys[i];
    assert InKeyOrder(all) ==> Leads(x, keys) by {
      assert forall j :: 0 <= j < |keys| && IsIndex(keys[j]) ==> IsIndex(all[j + 1]) && all[0] == x;
    }
  }

  lemma {:induction false} InsertOrdered(keys: seq<string>, x: string)
    requires InKeyOrder(keys) && IsIndex(x) && x !in keys
    ensures InKeyOrder(Insert(keys, x))
  {
    hide InKeyOrder;
    if keys != [] {
      assert keys == [keys[0]] + keys[1..];
      OrderedCons(keys[0], keys[1..]);
      if IsIndex(keys[0]) && Text.ParseNat(keys[0]) < Text.ParseNat(x) {
        InsertOrdered(keys[1..], x);
        InsertElements(keys[1..], x);
        var rest := Insert(keys[1..], x);
        assert forall j :: 0 <= j < |rest| ==> rest[j] in rest;
        OrderedCons(keys[0], rest);
      } else {
        OrderedCons(x, keys);
      }
    } else {
      OrderedCons(x, []);
    }
  }

  lemma {:induction false} KeysOrdered(s: seq<string>)
    ensures InKeyOrder(Keys(s))
  {
    if s != [] {
      KeysOrdered(s[..|s| - 1]);
      var k, x := Keys(s[..|s| - 1]), s[|s| - 1];
      if x !in k && IsIndex(x) { InsertOrdered(k, x); }
    }
  }

  lemma {:induction false} InsertLast(keys: seq<string>, x: string)
    requires InKeyOrder(keys + [x]) && IsIndex(x)
    ensures Insert(keys, x) == keys + [x]
  {
    if keys != [] {
      var all := keys + [x];
      assert all[|keys|] == x && all[0] == keys[0];
      assert InKeyOrder(keys[1..] + [x]) by {
        assert forall i :: 0 <= i < |keys| ==> (keys[1..] + [x])[i] == all[i + 1];
      }
      InsertLast(keys[1..], x);
    }
  }

  /** The keys are the first occurrences, exactly when these are already in key order. */
  lemma {:induction false} KeysAreFirstOccurrences(s: seq<string>)
    ensures Keys(s) == Dedup(s) <==> InKeyOrder(Dedup(s))
  {
    KeysOrdered(s);
    if s != [] && InKeyOrder(Dedup(s)) {
      var d, x := Dedup(s[..|s| - 1]), s[|s| - 1];
      assert InKeyOrder(d) by {
        assert forall i :: 0 <= i < |d| ==> d[i] == Dedup(s)[i];
      }
      KeysAreFirstOccurrences(s[..|s| - 1]);
      if x !in d && IsIndex(x) { InsertLast(d, x); }
    }
  }

  predicate Distinct(s: seq<string>) {
    forall i, j :: 0 <= i < j < |s| ==> s[i] != s[j]
  }

  lemma {:induction false} InsertDistinct(keys: seq<string>, x: string)
    requires Distinct(keys) && x !in keys
    ensures Distinct(Insert(keys, x))
  {
    if keys != [] && IsIndex(keys[0]) && Text.ParseNat(keys[0]) < Text.ParseNat(x) {
      InsertDistinct(keys[1..], x);
      InsertElements(keys[1..], x);
      assert forall j :: 0 <= j < |Insert(keys[1..], x)| ==> Insert(keys[1..], x)[j] in Insert(keys[1..], x);
    }
  }

  /** The keys are the strings of s, each once. */
  lemma {:induction false} KeysContents(s: seq<string>)
    ensures Distinct(Keys(s)) && forall y :: y in Keys(s) <==> y in s
  {
    PutAllElements([], s);
    if s != [] {
      KeysContents(s[..|s| - 1]);
      var k, x := Keys(s[..|s| - 1]), s[|s| - 1];
      if x !in k && IsIndex(x) { InsertDistinct(k, x); }
    }
  }

  // ---------- manifests ----------

  /** The manifest files, and how a line of a file becomes a path: joined to the directory of the file. */
  datatype Disk = Disk(files: map<string, seq<string>>, resolve: (string, string) -> string)

  predicate IsManifest(line: string) {
    |line| >= 5 && line[|line| - 5..] == ".json"
  }

  /** No manifest includes itself, directly or through others: what a manifest includes has a lower rank. */
  ghost predicate Acyclic(disk: Disk, rank: string -> nat) {
    forall f, i :: f in disk.files && 0 <= i < |disk.files[f]| && IsManifest(disk.files[f][i]) ==>
      rank(disk.resolve(f, disk.files[f][i])) < rank(f)
  }

  /** All files that reading f opens exist. */
  ghost predicate Readable(disk: Disk, rank: string -> nat, f: string)
    requires Acyclic(disk, rank)
    decreases rank(f), if f in disk.files then |disk.files[f]| + 1 else 0
  {
    f in disk.files && ReadableTo(disk, rank, f, |disk.files[f]|)
  }

  /** All files that the first k lines of f open exist. */
  ghost predicate ReadableTo(disk: Disk, rank: string -> nat, f: string, k: nat)
    requires Acyclic(disk, rank) && f in disk.files && k <= |disk.files[f]|
    decreases rank(f), k
  {
    k == 0 || (ReadableTo(disk, rank, f, k - 1) && ReadableLine(disk, rank, f, k - 1))
  }

  ghost predicate ReadableLine(disk: Disk, rank: string -> nat, f: string, i: nat)
    requires Acyclic(disk, rank) && f in disk.files && i < |disk.files[f]|
    decreases rank(f), i
  {
    IsManifest(disk.files[f][i]) ==> Readable(disk, rank, disk.resolve(f, disk.files[f][i]))
  }

  lemma {:induction false} UnreadableLine(disk: Disk, rank: string -> nat, f: string, i: nat, k: nat)
    requires Acyclic(disk, rank) && f in disk.files && i < k <= |disk.files[f]|
    requires !ReadableLine(disk, rank, f, i)
    ensures !ReadableTo(disk, rank, f, k)
    decreases k
  {
    if i < k - 1 { UnreadableLine(disk, rank, f, i, k - 1); }
  }

  /** The modules a manifest lists, depth first: what its first k lines contribute. */
  ghost function Flatten(disk: Disk, rank: string -> nat, f: string, k: nat): seq<string>
    requires Acyclic(disk, rank) && f in disk.files && k <= |disk.files[f]|
    decreases rank(f), k
  {
    if k == 0 then []
    else Flatten(disk, rank, f, k - 1) + FlattenLine(disk, rank, f, k - 1)
  }

  ghost function FlattenLine(disk: Disk, rank: string -> nat, f: string, i: nat): seq<string>
    requires Acyclic(disk, rank) && f in disk.files && i < |disk.files[f]|
    decreases rank(f), i
  {
    var path := disk.resolve(f, disk.files[f][i]);
    if IsManifest(disk.files[f][i]) then FlattenAll(disk, rank, path) else [path]
  }

  /** All modules of the manifest f, in order, with repetitions. */
  ghost function FlattenAll(disk: Disk, rank: string -> nat, f: string): seq<string>
    requires Acyclic(disk, rank)
    decreases rank(f), if f in disk.files then |disk.files[f]| + 1 else 0
  {
    if f in disk.files then Flatten(disk, rank, f, |disk.files[f]|) else []
  }

  class JsArray {
    var items: seq<string>

    constructor (items: seq<string>)
      ensures this.items == items
    {
      this.items := items;
    }

    method Push(x: string)
      modifies this
      ensures items == old(items) + [x]
    {
      items := items + [x];
    }
  }

  /** What one recursive call does to the accumulator m: the call pushed the part l of the modules of the
      included manifest into it, and returned the keys of all; the concatenation has the right keys. */
  lemma Absorbs(m: seq<string>, x: seq<string>, l: seq<string>, c: seq<string>)
    requires Keys(m) == Keys(x) && l <= c
    ensures Keys(m + l + Keys(m + c)) == Keys(x + c)
  {
    hide PutAll;
    PutAllSplit([], m + l, Keys(m + c));
    KeysOfKeys(Keys(m + l), m + c);
    var r := c[|l|..];
    assert m + c == m + l + r;
    PutAllSplit(Keys(m + l), m + l, r);
    PutAllElements([], m + l);
    PutAllKnown(Keys(m + l), m + l);
    PutAllSplit([], m + l, r);
    PutAllSplit([], m, c);
    PutAllSplit([], x, c);
  }

  /** Object.keys over the array, as the loop builds it. */
  method UniqueKeys(modules: JsArray) returns (keys: JsArray)
    ensures fresh(keys) && keys.items == Keys(modules.items)
  {
    var tmp: seq<string> := [];
    var i := 0;
    while i < |modules.items|
      invariant i <= |modules.items| && tmp == Keys(modules.items[..i])
    {
      assert modules.items[..i + 1][..i] == modules.items[..i];
      tmp := Put(tmp, modules.items[i]);
      i := i + 1;
    }
    assert modules.items[..i] == modules.items;
    keys := new JsArray(tmp);
  }

  /** Reads a manifest on top of what is in the array passed; none when a file cannot be read. The array
      passed may come back longer, by a part of what the manifest lists. */
  method ReadManifest(disk: Disk, filename: string, passed: JsArray, ghost rank: string -> nat)
    returns (result: Option<JsArray>)
    requires Acyclic(disk, rank)
    modifies passed
    ensures result.Some? <==> Readable(disk, rank, filename)
    ensures result.Some? ==>
      && fresh(result.value)
      && result.value.items == Keys(old(passed.items) + FlattenAll(disk, rank, filename))
      && old(passed.items) <= passed.items <= old(passed.items) + FlattenAll(disk, rank, filename)
    decreases rank(filename), 1
  {
    hide Keys, Flatten, FlattenAll, Readable, ReadableTo, ReadSoFar;
    if filename !in disk.files {
      Missing(disk, rank, filename);
      return None;
    }
    var modules := passed;
    ghost var acc := passed.items;
    NoLines(disk, rank, filename, acc);
    var i := 0;
    while i < |disk.files[filename]|
      invariant i <= |disk.files[filename]| && (modules == passed || fresh(modules))
      invariant ReadSoFar(disk, rank, filename, i, acc, passed.items, modules.items)
      invariant modules == passed ==> passed.items == acc + Flatten(disk, rank, filename, i)
    {
      var next := ReadLine(disk, filename, i, modules, rank, passed, acc);
      if next.None? { return None; }
      modules := next.value;
      i := i + 1;
    }
    AllLines(disk, rank, filename, acc, passed.items, modules.items);
    var keys := UniqueKeys(modules);
    result := Some(keys);
  }

  /** What is done with one line: a module is pushed into the array in use, an included manifest is read on top
      of that array and concatenated to it; none when that fails. */
  method ReadLine(disk: Disk, filename: string, i: nat, modules: JsArray,
                  ghost rank: string -> nat, ghost passed: JsArray, ghost acc: seq<string>)
    returns (now: Option<JsArray>)
    requires Acyclic(disk, rank) && filename in disk.files && i < |disk.files[filename]|
    requires ReadSoFar(disk, rank, filename, i, acc, passed.items, modules.items)
    requires modules == passed ==> passed.items == acc + Flatten(disk, rank, filename, i)
    modifies modules
    ensures now.None? ==> !Readable(disk, rank, filename)
    ensures now.Some? ==>
      && (now.value == modules || fresh(now.value))
      && ReadSoFar(disk, rank, filename, i + 1, acc, passed.items, now.value.items)
      && (now.value == passed ==> passed.items == acc + Flatten(disk, rank, filename, i + 1))
    decreases rank(filename), 0
  {
    hide Keys, Flatten, Readable, ReadableTo, ReadSoFar;
    var line := disk.files[filename][i];
    var fullpath := disk.resolve(filename, line);
    ghost var was, before := passed.items, modules.items;
    if IsManifest(line) {
      var sub := ReadManifest(disk, fullpath, modules, rank);
      if sub.None? {
        NotReadable(disk, rank, filename, i);
        return None;
      }
      Included(disk, rank, filename, i, acc, was, passed.items, before, modules.items, modules == passed);
      var joined := new JsArray(modules.items + sub.value.items);
      now := Some(joined);
    } else {
      Listed(disk, rank, filename, i, acc, was, before, modules == passed);
      modules.Push(fullpath);
      now := Some(modules);
    }
  }

  /** The list that a build task takes from its manifest: no accumulator is passed. */
  method BuildList(disk: Disk, manifest: string, ghost rank: string -> nat) returns (list: Option<JsArray>)
    requires Acyclic(disk, rank)
    ensures list.Some? <==> Readable(disk, rank, manifest)
    ensures list.Some? ==> fresh(list.value) && list.value.items == Keys(FlattenAll(disk, rank, manifest))
  {
    var none := new JsArray([]);
    list := ReadManifest(disk, manifest, none, rank);
    assert [] + FlattenAll(disk, rank, manifest) == FlattenAll(disk, rank, manifest);
  }

  /** After i lines: the array in use has the right keys, and the array passed holds a part of the modules. */
  ghost predicate ReadSoFar(disk: Disk, rank: string -> nat, f: string, i: nat, acc: seq<string>,
                            passed: seq<string>, modules: seq<string>)
    requires Acyclic(disk, rank) && f in disk.files && i <= |disk.files[f]|
  {
    && ReadableTo(disk, rank, f, i)
    && Keys(modules) == Keys(acc + Flatten(disk, rank, f, i))
    && acc <= passed <= acc + Flatten(disk, rank, f, i)
  }

  lemma NoLines(disk: Disk, rank: string -> nat, f: string, acc: seq<string>)
    requires Acyclic(disk, rank) && f in disk.files
    ensures ReadSoFar(disk, rank, f, 0, acc, acc, acc) && acc == acc + Flatten(disk, rank, f, 0)
  {
    assert acc + [] == acc;
  }

  lemma AllLines(disk: Disk, rank: string -> nat, f: string, acc: seq<string>,
                 passed: seq<string>, modules: seq<string>)
    requires Acyclic(disk, rank) && f in disk.files
    requires ReadSoFar(disk, rank, f, |disk.files[f]|, acc, passed, modules)
    ensures Readable(disk, rank, f) && Keys(modules) == Keys(acc + FlattenAll(disk, rank, f))
    ensures acc <= passed <= acc + FlattenAll(disk, rank, f)
  {
  }

  lemma Missing(disk: Disk, rank: string -> nat, f: string)
    requires Acyclic(disk, rank) && f !in disk.files
    ensures !Readable(disk, rank, f)
  {
  }

  lemma NotReadable(disk: Disk, rank: string -> nat, f: string, i: nat)
    requires Acyclic(disk, rank) && f in disk.files && i < |disk.files[f]| && IsManifest(disk.files[f][i])
    requires !Readable(disk, rank, disk.resolve(f, disk.files[f][i]))
    ensures !Readable(disk, rank, f)
  {
    UnreadableLine(disk, rank, f, i, |disk.files[f]|);
  }

  /** A line that names a module. */
  lemma Listed(disk: Disk, rank: string -> nat, f: string, i: nat, acc: seq<string>,
               passed: seq<string>, modules: seq<string>, same: bool)
    requires Acyclic(disk, rank) && f in disk.files && i < |disk.files[f]| && !IsManifest(disk.files[f][i])
    requires ReadSoFar(disk, rank, f, i, acc, passed, modules)
    requires same ==> passed == modules == acc + Flatten(disk, rank, f, i)
    ensures var now := modules + [disk.resolve(f, disk.files[f][i])];
      && ReadSoFar(disk, rank, f, i + 1, acc, if same then now else passed, now)
      && (same ==> now == acc + Flatten(disk, rank, f, i + 1))
  {
    var x, soFar := disk.resolve(f, disk.files[f][i]), Flatten(disk, rank, f, i);
    PutAllSplit([], modules, [x]);
    PutAllSplit([], acc + soFar, [x]);
    assert acc + soFar + [x] == acc + (soFar + [x]);
  }

  /** A line that includes a manifest: the call grew the array in use from before to after. */
  lemma Included(disk: Disk, rank: string -> nat, f: string, i: nat, acc: seq<string>, was: seq<string>,
                 passed: seq<string>, before: seq<string>, after: seq<string>, same: bool)
    requires Acyclic(disk, rank) && f in disk.files && i < |disk.files[f]| && IsManifest(disk.files[f][i])
    requires ReadSoFar(disk, rank, f, i, acc, was, before)
    requires same ==> was == before == acc + Flatten(disk, rank, f, i) && passed == after
    requires !same ==> passed == was
    requires var path := disk.resolve(f, disk.files[f][i]);
      Readable(disk, rank, path) && before <= after <= before + FlattenAll(disk, rank, path)
    ensures var c := FlattenAll(disk, rank, disk.resolve(f, disk.files[f][i]));
      ReadSoFar(disk, rank, f, i + 1, acc, passed, after + Keys(before + c))
  {
    hide Keys;
    var c, soFar := FlattenAll(disk, rank, disk.resolve(f, disk.files[f][i])), Flatten(disk, rank, f, i);
    var l := after[|before|..];
    assert after == before + l;
    assert l <= c by { assert l == (before + c)[|before|..|after|]; }
    Absorbs(before, acc + soFar, l, c);
    assert acc + soFar + c == acc + (soFar + c);
    assert Flatten(disk, rank, f, i + 1) == soFar + c;
    assert acc + (soFar + c) == before + c || passed == was;
    assert was <= acc + soFar <= acc + (soFar + c);
    assert before + l <= before + c;
    assert ReadableTo(disk, rank, f, i + 1);
    assert Keys(after + Keys(before + c)) == Keys(acc + Flatten(disk, rank, f, i + 1));
    assert acc <= passed;
    assert passed <= acc + Flatten(disk, rank, f, i + 1);
  }

  /** A manifest whose list is not the first occurrences in order: the index-like name comes first. */
  lemma IndexFirst(disk: Disk, rank: string -> nat)
    requires Acyclic(disk, rank)
    requires disk.files == map["build.json" := ["b", "1"]]
    requires disk.resolve("build.json", "b") == "b" && disk.resolve("build.json", "1") == "1"
    ensures Readable(disk, rank, "build.json") && FlattenAll(disk, rank, "build.json") == ["b", "1"]
    ensures Keys(["b", "1"]) == ["1", "b"] && Dedup(["b", "1"]) == ["b", "1"]
  {
    var f := "build.json";
    assert !IsManifest("b") && !IsManifest("1");
    assert FlattenLine(disk, rank, f, 0) == ["b"] && FlattenLine(disk, rank, f, 1) == ["1"];
    assert Flatten(disk, rank, f, 0) == [];
    assert Flatten(disk, rank, f, 1) == ["b"];
    assert Flatten(disk, rank, f, 2) == ["b", "1"];
    assert ReadableLine(disk, rank, f, 0) && ReadableLine(disk, rank, f, 1);
    assert ReadableTo(disk, rank, f, 0);
    assert ReadableTo(disk, rank, f, 1);
    assert ReadableTo(disk, rank, f, 2);
    assert ["b", "1"][..1] == ["b"] && ["b"][..0] == [];
    assert "1"[..0] == "" && Text.ParseNat("1") == 1 && Text.Decimal(1) == "1";
    assert IsIndex("1") && !IsIndex("b");
    assert PutAll([], ["b"]) == ["b"];
  }

  // ---------- which lines are manifests, which keys indices ----------

  /** The lines read as manifests are those that end in ".json". */
  lemma ManifestExact(line: string)
    ensures IsManifest(line) <==> exists s :: line == s + ".json"
  {
    if IsManifest(line) { assert line == line[..|line| - 5] + ".json"; }
    if s :| line == s + ".json" { assert line[|line| - 5..] == ".json"; }
  }

  /** A line that ends in ".json" contributes the modules of the file that it resolves to, another one its own path. */
  lemma LineExact(disk: Disk, rank: string -> nat, f: string, i: nat, s: string)
    requires Acyclic(disk, rank) && f in disk.files && i < |disk.files[f]|
    ensures disk.files[f][i] == s + ".json" ==>
      FlattenLine(disk, rank, f, i) == FlattenAll(disk, rank, disk.resolve(f, s + ".json"))
    ensures (forall s :: disk.files[f][i] != s + ".json") ==>
      FlattenLine(disk, rank, f, i) == [disk.resolve(f, disk.files[f][i])]
  {
    ManifestExact(disk.files[f][i]);
    hide IsManifest, FlattenAll;
  }

  /** An index is a natural number below 2^32 - 1 without leading zeros. */
  lemma IndexExact(s: string)
    ensures IsIndex(s) <==> exists n: nat :: n < 4294967295 && s == Text.Decimal(n)
  {
    if IsIndex(s) { assert s == Text.Decimal(Text.ParseNat(s)); }
    if n: nat :| n < 4294967295 && s == Text.Decimal(n) { Text.ParseDecimal(n); }
  }

  /** The names in s that are no indices. */
  function Names(s: seq<string>): seq<string> {
    if s == [] then []
    else Names(s[..|s| - 1]) + if IsIndex(s[|s| - 1]) then [] else [s[|s| - 1]]
  }

  lemma {:induction false} NamesSplit(s: seq<string>, t: seq<string>)
    ensures Names(s + t) == Names(s) + Names(t)
    decreases |t|
  {
    if t == [] {
      assert s + t == s;
    } else {
      NamesSplit(s, t[..|t| - 1]);
      assert (s + t)[..|s + t| - 1] == s + t[..|t| - 1];
    }
  }

  lemma NamesOne(x: string)
    ensures Names([x]) == if IsIndex(x) then [] else [x]
  {
    assert [x][..0] == [];
  }

  lemma {:induction false} InsertNames(keys: seq<string>, x: string)
    requires IsIndex(x)
    ensures Names(Insert(keys, x)) == Names(keys)
  {
    hide Names, IsIndex;
    if keys != [] && IsIndex(keys[0]) && Text.ParseNat(keys[0]) < Text.ParseNat(x) {
      InsertNames(keys[1..], x);
      NamesSplit([keys[0]], Insert(keys[1..], x));
      NamesSplit([keys[0]], keys[1..]);
      assert keys == [keys[0]] + keys[1..];
    } else {
      NamesSplit([x], keys);
      NamesOne(x);
    }
  }

  /** The keys that are no indices come in the order of their first occurrences. */
  lemma {:induction false} NamesInOrder(s: seq<string>)
    ensures Names(Keys(s)) == Names(Dedup(s)) && forall x :: x in Keys(s) <==> x in Dedup(s)
  {
    hide IsIndex;
    if s != [] {
      var most, x := s[..|s| - 1], s[|s| - 1];
      NamesInOrder(most);
      PutElements(Keys(most), x);
      if x !in Keys(most) {
        NamesSplit(Keys(most), [x]);
        NamesSplit(Dedup(most), [x]);
        NamesOne(x);
        if IsIndex(x) { InsertNames(Keys(most), x); }
      }
    }
  }

  // ---------- an included manifest ----------

  const EXAMPLE := Disk(map["top.json" := ["a.js", "sub.json", "c.js"], "sub.json" := ["b.js", "a.js"]],
                        (f: string, line: string) => line)

  function Level(f: string): nat { if f == "top.json" then 1 else 0 }

  lemma ExampleLines()
    ensures Acyclic(EXAMPLE, Level)
    ensures FlattenAll(EXAMPLE, Level, "sub.json") == ["b.js", "a.js"]
    ensures Readable(EXAMPLE, Level, "sub.json")
  {
    var f := "sub.json";
    assert !IsManifest("a.js") && !IsManifest("b.js") && !IsManifest("c.js") && IsManifest("sub.json");
    assert Acyclic(EXAMPLE, Level);
    assert FlattenLine(EXAMPLE, Level, f, 0) == ["b.js"] && FlattenLine(EXAMPLE, Level, f, 1) == ["a.js"];
    assert Flatten(EXAMPLE, Level, f, 0) == [];
    assert Flatten(EXAMPLE, Level, f, 1) == ["b.js"];
    assert Flatten(EXAMPLE, Level, f, 2) == ["b.js", "a.js"];
    assert ReadableLine(EXAMPLE, Level, f, 0) && ReadableLine(EXAMPLE, Level, f, 1);
    assert ReadableTo(EXAMPLE, Level, f, 0);
    assert ReadableTo(EXAMPLE, Level, f, 1);
    assert ReadableTo(EXAMPLE, Level, f, 2);
  }

  lemma ExampleAll()
    ensures Acyclic(EXAMPLE, Level) && Readable(EXAMPLE, Level, "top.json")
    ensures FlattenAll(EXAMPLE, Level, "top.json") == ["a.js", "b.js", "a.js", "c.js"]
  {
    hide Acyclic;
    var f := "top.json";
    ExampleLines();
    assert !IsManifest("a.js") && !IsManifest("c.js") && IsManifest("sub.json");
    assert FlattenLine(EXAMPLE, Level, f, 0) == ["a.js"] && FlattenLine(EXAMPLE, Level, f, 2) == ["c.js"];
    assert FlattenLine(EXAMPLE, Level, f, 1) == ["b.js", "a.js"];
    assert Flatten(EXAMPLE, Level, f, 0) == [];
    assert Flatten(EXAMPLE, Level, f, 1) == ["a.js"];
    assert Flatten(EXAMPLE, Level, f, 2) == ["a.js", "b.js", "a.js"];
    assert Flatten(EXAMPLE, Level, f, 3) == ["a.js", "b.js", "a.js", "c.js"];
    assert ReadableLine(EXAMPLE, Level, f, 0) && ReadableLine(EXAMPLE, Level, f, 1);
    assert ReadableLine(EXAMPLE, Level, f, 2);
    assert ReadableTo(EXAMPLE, Level, f, 0);
    assert ReadableTo(EXAMPLE, Level, f, 1);
    assert ReadableTo(EXAMPLE, Level, f, 2);
    assert ReadableTo(EXAMPLE, Level, f, 3);
  }

  lemma ExampleKeys()
    ensures Keys(["a.js", "b.js", "a.js", "c.js"]) == ["a.js", "b.js", "c.js"]
  {
    assert !IsIndex("a.js") && !IsIndex("b.js") && !IsIndex("c.js");
    var s := ["a.js", "b.js", "a.js", "c.js"];
    assert s[..3] == ["a.js", "b.js", "a.js"] && s[..3][..2] == ["a.js", "b.js"] && s[..3][..2][..1] == ["a.js"];
    assert PutAll([], ["a.js"]) == ["a.js"];
    assert PutAll([], ["a.js", "b.js"]) == ["a.js", "b.js"];
    assert PutAll([], ["a.js", "b.js", "a.js"]) == ["a.js", "b.js"];
  }

  /** The list of a manifest that includes another one: its modules stand where the line was, each once. */
  method ExampleList() returns (list: JsArray)
    ensures fresh(list) && list.items == ["a.js", "b.js", "c.js"]
  {
    ExampleAll();
    ExampleKeys();
    var r := BuildList(EXAMPLE, "top.json", Level);
    list := r.value;
  }
}
