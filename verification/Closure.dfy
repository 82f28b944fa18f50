/** The DLL closure of tools/popplerbundle/closure.go: a worklist over an import graph. */
module Closure {
  import opened Bytes
  import opened Sorting

  // strings.ToLower on ASCII names
  function LowerChar(c: char): char {
    if 'A' <= c <= 'Z' then (c as int - 'A' as int + 'a' as int) as char else c
  }

  function Lower(s: string): (r: string)
    ensures |r| == |s|
  {
    seq(|s|, i requires 0 <= i < |s| => LowerChar(s[i]))
  }

  // The names agree letter by letter, up to the case of the letters from A to Z.
  ghost predicate SameName(a: string, b: string) {
    |a| == |b| && forall i :: 0 <= i < |a| ==> SameLetter(a[i], b[i])
  }

  ghost predicate SameLetter(c: char, d: char) {
    || c == d
    || ('A' <= c <= 'Z' && d as int == c as int + 32)
    || ('A' <= d <= 'Z' && c as int == d as int + 32)
  }

  // The key of a name is the one name without capitals that agrees with it.
  lemma LowerOnly(s: string, key: string)
    ensures key == Lower(s) <==> SameName(s, key) && forall i :: 0 <= i < |key| ==> !('A' <= key[i] <= 'Z')
  {
    if SameName(s, key) && forall i :: 0 <= i < |key| ==> !('A' <= key[i] <= 'Z') {
      forall i | 0 <= i < |key| ensures key[i] == Lower(s)[i] {
        assert SameLetter(s[i], key[i]);
      }
    }
  }

  // Names have the same key exactly when they agree up to case.
  lemma SameKeyIff(a: string, b: string)
    ensures Lower(a) == Lower(b) <==> SameName(a, b)
  {
    if Lower(a) == Lower(b) {
      forall i | 0 <= i < |a| ensures SameLetter(a[i], b[i]) {
        assert Lower(a)[i] == Lower(b)[i];
      }
    }
    if SameName(a, b) {
      forall i | 0 <= i < |a| ensures Lower(a)[i] == Lower(b)[i] {
        assert SameLetter(a[i], b[i]);
      }
    }
  }

  predicate IsOSProvided(dll: string) {
    var d := Lower(dll);
    d == "ucrtbase.dll" || "api-ms-win-" <= d || "ext-ms-" <= d
  }

  // Windows provides, in any case, ucrtbase.dll and the names that start with one of two prefixes.
  lemma ProvidedIff(s: string)
    ensures IsOSProvided(s) <==>
            || SameName(s, "ucrtbase.dll")
            || (|s| >= 11 && SameName(s[..11], "api-ms-win-"))
            || (|s| >= 7 && SameName(s[..7], "ext-ms-"))
  {
    hide SameName, Lower;
    LowerOf(s, "ucrtbase.dll");
    if |s| >= 11 {
      LowerOf(s[..11], "api-ms-win-");
      LowerFirst(s, 11);
    }
    if |s| >= 7 {
      LowerOf(s[..7], "ext-ms-");
      LowerFirst(s, 7);
    }
  }

  lemma LowerOf(s: string, key: string)
    requires forall i :: 0 <= i < |key| ==> !('A' <= key[i] <= 'Z')
    ensures Lower(s) == key <==> SameName(s, key)
  {
    hide SameName, Lower;
    LowerOnly(s, key);
  }

  lemma LowerFirst(s: string, n: nat)
    requires n <= |s|
    ensures Lower(s[..n]) == Lower(s)[..n]
  {
  }

  lemma LowerTwice(s: string)
    ensures Lower(Lower(s)) == Lower(s)
  {
  }

  // Whether a file belongs into the bundle does not depend on the case of its name.
  lemma ProvidedByKey(s: string)
    ensures IsOSProvided(Lower(s)) <==> IsOSProvided(s)
  {
    LowerTwice(s);
  }

  // Keys are names in lower case.
  type Files = map<string, string>

  type Imports = string -> Result<seq<string>>

  // The bundle has a file of that name, and Windows does not.
  predicate Wanted(name: string, available: Files) {
    Lower(name) in available && !IsOSProvided(name)
  }

  // Every wanted name is listed.
  ghost predicate Covers(names: seq<string>, available: Files, keys: set<string>) {
    forall n :: n in names && Wanted(n, available) ==> Lower(n) in keys
  }

  // keys contains the roots and, with every file that can be read, the files it imports.
  ghost predicate Closed(roots: seq<string>, available: Files, imports: Imports, keys: set<string>) {
    && Covers(roots, available, keys)
    && forall k ::
      k in keys && k in available && imports(available[k]).Ok?
      ==> Covers(imports(available[k]).value, available, keys)
  }

  // key is in every closed set.
  ghost predicate Reachable(roots: seq<string>, available: Files, imports: Imports, key: string) {
    forall keys :: Closed(roots, available, imports, keys) ==> key in keys
  }

  // No file has an empty name: the loop takes one for not yet visited, and on a cycle it would
  // never end.
  ghost predicate Named(available: Files) {
    forall k :: k in available ==> available[k] != ""
  }

  // No file stands under two keys, as none does where each stands under its own name in lower case.
  ghost predicate OneEach(available: Files) {
    forall k, l :: k in available && l in available && available[k] == available[l] ==> k == l
  }

  lemma LowerKeysOneEach(available: Files)
    requires forall k :: k in available ==> Lower(available[k]) == k
    ensures OneEach(available)
  {
    hide Lower;
    forall k, l | k in available && l in available && available[k] == available[l] ensures k == l {
      assert Lower(available[k]) == k && Lower(available[l]) == l;
    }
  }

  // ----- order of names -----

  predicate NameLe(a: string, b: string) {
    a == "" || (b != "" && (a[0] < b[0] || (a[0] == b[0] && NameLe(a[1..], b[1..]))))
  }

  // One name comes before another when it starts the other, or is smaller where they first differ.
  lemma {:induction false} NameLeIff(a: string, b: string)
    ensures NameLe(a, b) <==> a <= b || exists k :: FirstBelow(a, b, k)
  {
    if a != "" && b != "" {
      NameLeIff(a[1..], b[1..]);
      if a[0] < b[0] {
        assert FirstBelow(a, b, 0);
      }
      if a[0] == b[0] {
        assert a <= b <==> a[1..] <= b[1..];
        if exists k :: FirstBelow(a, b, k) {
          var k :| FirstBelow(a, b, k);
          assert a[k] < b[k];
          assert a[1..][..k - 1] == a[..k][1..] && b[1..][..k - 1] == b[..k][1..];
          assert FirstBelow(a[1..], b[1..], k - 1);
        }
        if exists k :: FirstBelow(a[1..], b[1..], k) {
          var k :| FirstBelow(a[1..], b[1..], k);
          assert a[..k + 1] == [a[0]] + a[1..][..k] && b[..k + 1] == [b[0]] + b[1..][..k];
          assert FirstBelow(a, b, k + 1);
        }
      }
    }
  }

  ghost predicate FirstBelow(a: string, b: string, k: int) {
    0 <= k < |a| && k < |b| && a[..k] == b[..k] && a[k] < b[k]
  }

  lemma {:induction false} NameTotal(a: string, b: string)
    ensures NameLe(a, b) || NameLe(b, a)
  {
    if a != "" && b != "" && a[0] == b[0] {
      NameTotal(a[1..], b[1..]);
    }
  }

  lemma {:induction false} NameTransitive(a: string, b: string, c: string)
    requires NameLe(a, b) && NameLe(b, c)
    ensures NameLe(a, c)
  {
    if a != "" && a[0] == b[0] == c[0] {
      NameTransitive(a[1..], b[1..], c[1..]);
    }
  }

  lemma NameOrder()
    ensures TotalPreorder(NameLe)
  {
    forall a, b ensures NameLe(a, b) || NameLe(b, a) {
      NameTotal(a, b);
    }
    forall a, b, c | NameLe(a, b) && NameLe(b, c) ensures NameLe(a, c) {
      NameTransitive(a, b, c);
    }
  }

  // ----- the worklist -----

  // What the loop knows: the files in need are reachable and readable, what waits in the queue is
  // reachable if wanted, and everything wanted so far is in need or in the queue.
  ghost predicate Progress(roots: seq<string>, available: Files, imports: Imports, need: Files, queue: seq<string>) {
    && (forall k :: k in need ==> k in available && need[k] == available[k] && imports(available[k]).Ok?)
    && (forall k :: k in need ==> Reachable(roots, available, imports, k))
    && (forall q :: q in queue && Wanted(q, available) ==> Reachable(roots, available, imports, Lower(q)))
    && Pending(roots, available, need, queue)
    && (forall k :: k in need ==> Pending(imports(available[k]).value, available, need, queue))
  }

  ghost predicate Pending(names: seq<string>, available: Files, need: Files, queue: seq<string>) {
    forall n :: n in names && Wanted(n, available) ==> Lower(n) in need || n in queue
  }

  lemma RootsReachable(roots: seq<string>, available: Files, imports: Imports, n: string)
    requires n in roots && Wanted(n, available)
    ensures Reachable(roots, available, imports, Lower(n))
  {
    hide Lower, IsOSProvided, Wanted;
  }

  lemma ImportsReachable(roots: seq<string>, available: Files, imports: Imports, k: string, n: string)
    requires Reachable(roots, available, imports, k) && k in available && imports(available[k]).Ok?
    requires n in imports(available[k]).value && Wanted(n, available)
    ensures Reachable(roots, available, imports, Lower(n))
  {
    hide Lower, IsOSProvided, Wanted;
    forall keys | Closed(roots, available, imports, keys) ensures Lower(n) in keys {
      assert k in keys;
    }
  }

  // Dropping the head of the queue when its file is not wanted, or is in need already.
  lemma Skip(roots: seq<string>, available: Files, imports: Imports, need: Files, queue: seq<string>)
    requires Progress(roots, available, imports, need, queue) && queue != []
    requires !Wanted(queue[0], available) || Lower(queue[0]) in need
    ensures Progress(roots, available, imports, need, queue[1..])
  {
    hide Lower, Reachable, Wanted;
    forall names | Pending(names, available, need, queue) ensures Pending(names, available, need, queue[1..]) {
      forall n | n in names && Wanted(n, available) ensures Lower(n) in need || n in queue[1..] {
        assert n in queue ==> n == queue[0] || n in queue[1..];
      }
    }
  }

  // Taking the file of the head of the queue, and queueing its imports.
  lemma Take(roots: seq<string>, available: Files, imports: Imports, need: Files, queue: seq<string>)
    requires Progress(roots, available, imports, need, queue) && queue != [] && Wanted(queue[0], available)
    requires Lower(queue[0]) in available && imports(available[Lower(queue[0])]).Ok?
    ensures var key := Lower(queue[0]);
            Progress(roots, available, imports, need[key := available[key]], queue[1..] + imports(available[key]).value)
  {
    hide Lower, Reachable, Wanted;
    var key := Lower(queue[0]);
    var deps := imports(available[key]).value;
    var need', queue' := need[key := available[key]], queue[1..] + deps;
    forall names | Pending(names, available, need, queue) ensures Pending(names, available, need', queue') {
      forall n | n in names && Wanted(n, available) ensures Lower(n) in need' || n in queue' {
        assert n in queue ==> n == queue[0] || n in queue[1..];
      }
    }
    forall q | q in queue' && Wanted(q, available) ensures Reachable(roots, available, imports, Lower(q)) {
      if q in deps {
        ImportsReachable(roots, available, imports, key, q);
      }
    }
  }

  lemma Start(roots: seq<string>, available: Files, imports: Imports)
    ensures Progress(roots, available, imports, map[], roots)
  {
    hide Lower, Reachable, Wanted;
    forall q | q in roots && Wanted(q, available) ensures Reachable(roots, available, imports, Lower(q)) {
      RootsReachable(roots, available, imports, q);
    }
  }

  lemma Finished(roots: seq<string>, available: Files, imports: Imports, need: Files)
    requires Progress(roots, available, imports, need, [])
    ensures Closed(roots, available, imports, need.Keys)
    ensures forall k :: Reachable(roots, available, imports, k) <==> k in need
  {
    hide Lower, Wanted;
    assert Pending(roots, available, need, []);
    forall k | k in need ensures Covers(imports(available[k]).value, available, need.Keys) {
      assert Pending(imports(available[k]).value, available, need, []);
    }
  }

  // The head of the queue: what the loop's test says about it.
  lemma HeadWanted(available: Files, name: string, need: Files)
    requires Named(available)
    requires forall k :: k in need ==> k in available && need[k] == available[k]
    ensures var key := Lower(name);
            (key !in available || (key in need && need[key] != "") || IsOSProvided(name))
            <==> (!Wanted(name, available) || key in need)
  {
  }

  // Every file of need, as often as there are keys for it.
  ghost predicate Listing(need: Files, files: seq<string>) {
    && (forall k :: k in need ==> need[k] in files)
    && (forall f :: f in files ==> exists k :: k in need && need[k] == f)
    && |files| == |need|
    && (OneEach(need) ==> NoDuplicates(files))
  }

  // Putting a listing in another order keeps it a listing.
  lemma SortedListing(need: Files, files: seq<string>, sorted: seq<string>)
    requires Listing(need, files) && multiset(sorted) == multiset(files)
    ensures Listing(need, sorted)
  {
    assert forall f :: f in files <==> f in multiset(files);
    assert forall f :: f in sorted <==> f in multiset(sorted);
    assert |multiset(sorted)| == |sorted| && |multiset(files)| == |files|;
    if OneEach(need) {
      StillOnce(files, sorted);
    }
  }

  // The files of need, in any order.
  method FilesOf(need: Files) returns (files: seq<string>)
    ensures Listing(need, files)
  {
    files := [];
    var left := need.Keys;
    while left != {}
      invariant left <= need.Keys && |files| + |left| == |need|
      invariant forall k :: k in need && k !in left ==> need[k] in files
      invariant forall f :: f in files ==> exists k :: k in need && k !in left && need[k] == f
      invariant OneEach(need) ==> NoDuplicates(files)
      decreases |left|
    {
      var key :| key in left;
      assert OneEach(need) ==> need[key] !in files;
      files := files + [need[key]];
      left := left - {key};
    }
  }

  lemma WithoutHead(roots: seq<string>, available: Files, imports: Imports, need: Files, queue: seq<string>)
    requires Progress(roots, available, imports, need, queue)
    ensures forall k :: k in need ==> k in available && need[k] == available[k]
    ensures queue != [] && Wanted(queue[0], available) ==> Reachable(roots, available, imports, Lower(queue[0]))
  {
    hide Reachable, Wanted, Lower;
  }

  // The files in need at the end are the reachable ones, and none of them is unreadable.
  lemma AllRead(roots: seq<string>, available: Files, imports: Imports, need: Files)
    requires Progress(roots, available, imports, need, [])
    ensures forall k :: k in need <==> k in available && Reachable(roots, available, imports, k)
    ensures forall k :: k in need ==> need[k] == available[k] && imports(available[k]).Ok?
  {
    hide Reachable, Wanted, Lower, Pending;
    Finished(roots, available, imports, need);
  }

  // What the least closed set has: only files of the bundle that Windows does not provide, all such
  // files among the roots, and all that a readable file of the set imports.
  lemma Bundled(roots: seq<string>, available: Files, imports: Imports)
    ensures forall k :: Reachable(roots, available, imports, k) ==> k in available && !IsOSProvided(k)
    ensures forall n :: n in roots && Lower(n) in available && !IsOSProvided(n) ==>
              Reachable(roots, available, imports, Lower(n))
    ensures forall k, n ::
              Reachable(roots, available, imports, k) && k in available && imports(available[k]).Ok?
              && n in imports(available[k]).value && Lower(n) in available && !IsOSProvided(n)
              ==> Reachable(roots, available, imports, Lower(n))
  {
    hide Lower, IsOSProvided;
    var keys := set k | k in available && !IsOSProvided(k);
    forall n | Wanted(n, available) ensures Lower(n) in keys {
      ProvidedByKey(n);
    }
    assert Closed(roots, available, imports, keys);
  }

  // closure: exactly the reachable files, sorted, one for each reachable key; an error exactly when
  // one of the reachable files cannot be read.
  method ComputeClosure(roots: seq<string>, available: Files, imports: Imports) returns (r: Result<seq<string>>)
    requires Named(available)
    ensures r.Err? <==> exists k ::
        k in available && Reachable(roots, available, imports, k)
        && imports(available[k]).Err?
    ensures r.Ok? ==>
              && (forall f :: f in r.value <==> exists k ::
                  k in available && Reachable(roots, available, imports, k)
                  && available[k] == f)
              && Sorted(NameLe, r.value)
              && |r.value| == |set k | k in available && Reachable(roots, available, imports, k)|
              && (OneEach(available) ==> NoDuplicates(r.value))
  {
    hide Reachable, Progress, IsOSProvided, Lower, Closed, Wanted;
    var need: Files := map[];
    var queue := roots;
    Start(roots, available, imports);
    while |queue| > 0
      invariant Progress(roots, available, imports, need, queue)
      invariant need.Keys <= available.Keys
      decreases available.Keys - need.Keys, |queue|
    {
      ghost var before := queue;
      var name := queue[0];
      queue := queue[1..];
      var key := Lower(name);
      WithoutHead(roots, available, imports, need, before);
      HeadWanted(available, name, need);
      if key !in available || (key in need && need[key] != "") || IsOSProvided(name) {
        Skip(roots, available, imports, need, before);
        continue;
      }
      var file := available[key];
      ghost var need0 := need;
      need := need[key := file];
      assert available.Keys - need.Keys < available.Keys - need0.Keys by {
        assert key in available.Keys - need0.Keys;
      }
      var deps := imports(file);
      if deps.Err? {
        return Err(deps.reason);
      }
      Take(roots, available, imports, need0, before);
      queue := queue + deps.value;
    }
    AllRead(roots, available, imports, need);
    var files := FilesOf(need);
    NameOrder();
    var sorted := Sort(NameLe, files);
    SortedListing(need, files, sorted);
    assert need.Keys == set k | k in available && Reachable(roots, available, imports, k);
    r := Ok(sorted);
  }
}
