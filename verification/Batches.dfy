/** How `parse_files` of src/cpp/parser/parser.cpp cuts its inputs into umbrella batches. */
module Batches {
  import opened Arithmetic
  import opened Wrappers
  import Sequences

  // In canonical path order, never mixing two flag sets, at most `size` members each.

  /** Batches are never empty; the key of a batch is the key of its first member. */
  ghost predicate Formed<T>(bs: seq<seq<T>>, key: T -> string, size: nat) {
    forall i | 0 <= i < |bs| :: bs[i] != [] && |bs[i]| <= size && OneKey(bs[i], key)
  }

  ghost predicate OneKey<T>(b: seq<T>, key: T -> string) { forall i | 0 <= i < |b| :: key(b[i]) == key(b[0]) }

  function KeyOf<T>(b: seq<T>, key: T -> string): string { if b == [] then "" else key(b[0]) }

  /** The members of s that carry the key k. */
  function OfKey<T>(s: seq<T>, key: T -> string, k: string): seq<T> {
    if s == [] then []
    else OfKey(s[..|s| - 1], key, k) + if key(s[|s| - 1]) == k then [s[|s| - 1]] else []
  }

  /** The batches that carry the key k. */
  function BatchesOfKey<T>(bs: seq<seq<T>>, key: T -> string, k: string): seq<seq<T>> {
    if bs == [] then []
    else BatchesOfKey(bs[..|bs| - 1], key, k) + if KeyOf(bs[|bs| - 1], key) == k then [bs[|bs| - 1]] else []
  }

  /** Plain chunking: full chunks of `size`, then what is left over. */
  function Chunks<T>(s: seq<T>, size: nat): seq<seq<T>>
    requires size > 0
  {
    if s == [] then [] else if |s| <= size then [s] else [s[..size]] + Chunks(s[size..], size)
  }

  ghost predicate NoneEmpty<T>(bs: seq<seq<T>>) { forall i | 0 <= i < |bs| :: bs[i] != [] }

  ghost function Firsts<T>(bs: seq<seq<T>>): seq<T>
    requires NoneEmpty(bs)
  {
    seq(|bs|, i requires 0 <= i < |bs| => bs[i][0])
  }

  /** a arises from b by leaving members out. */
  ghost predicate Subsequence<T>(a: seq<T>, b: seq<T>) {
    a == [] || (b != [] && ((a[|a| - 1] == b[|b| - 1] && Subsequence(a[..|a| - 1], b[..|b| - 1]))
                            || Subsequence(a, b[..|b| - 1])))
  }

  /** The cut that is promised: each flag set is chunked on its own, and the batches of all flag sets together
      come in the order of their first members. */
  ghost predicate Cut<T(!new)>(bs: seq<seq<T>>, order: seq<T>, key: T -> string, size: nat)
    requires size > 0
  {
    && Formed(bs, key, size)
    && (forall k :: BatchesOfKey(bs, key, k) == Chunks(OfKey(order, key, k), size))
    && Subsequence(Firsts(bs), order)
  }

  /** The last batch with key k. */
  function LastOf<T>(bs: seq<seq<T>>, key: T -> string, k: string): (r: Option<nat>)
    ensures r.Some? ==> r.value < |bs| && KeyOf(bs[r.value], key) == k &&
                        forall j | r.value < j < |bs| :: KeyOf(bs[j], key) != k
    ensures r.None? ==> forall j | 0 <= j < |bs| :: KeyOf(bs[j], key) != k
  {
    if bs == [] then None
    else if KeyOf(bs[|bs| - 1], key) == k then Some(|bs| - 1)
    else LastOf(bs[..|bs| - 1], key, k)
  }

  /** Where one more input goes: into the last batch of its flag set if that has room, into a new one otherwise. */
  function Place<T>(bs: seq<seq<T>>, key: T -> string, size: nat, x: T): seq<seq<T>> {
    match LastOf(bs, key, key(x))
    case Some(j) => if |bs[j]| >= size then bs + [[x]] else bs[j := bs[j] + [x]]
    case None => bs + [[x]]
  }

  function PlaceAll<T>(order: seq<T>, key: T -> string, size: nat): seq<seq<T>> {
    if order == [] then [] else Place(PlaceAll(order[..|order| - 1], key, size), key, size, order[|order| - 1])
  }

  ghost predicate InRange(order: seq<nat>, n: nat) { forall a | 0 <= a < |order| :: order[a] < n }

  /** The flag key of an input. */
  function Lookup(keys: seq<string>): nat -> string { (i: nat) => if i < |keys| then keys[i] else "" }

  /** `make_batches`. */
  method MakeBatches(order: seq<nat>, keys: seq<string>, size: nat) returns (batches: seq<seq<nat>>)
    requires size > 0 && InRange(order, |keys|)
    ensures batches == PlaceAll(order, Lookup(keys), size)
    ensures Cut(batches, order, Lookup(keys), size)
  {
    hide PlaceAll, LastOf, Cut, Tracks, Place;
    PlaceAllNone(Lookup(keys), size);
    TracksNothing<nat>(Lookup(keys));
    batches := [];
    var open: map<string, nat> := map[];
    for n := 0 to |order|
      invariant batches == PlaceAll(order[..n], Lookup(keys), size)
      invariant Tracks(open, batches, Lookup(keys))
      invariant NoneEmpty(batches)
    {
      var i := order[n];
      ghost var before, wasOpen := batches, open;
      TracksAt(open, batches, Lookup(keys), keys[i]);
      PlaceAllAdd(order[..n], i, Lookup(keys), size);
      assert order[..n + 1] == order[..n] + [i];
      if keys[i] !in open || |batches[open[keys[i]]]| >= size {
        open := open[keys[i] := |batches|];
        batches := batches + [[]];
      }
      var slot := open[keys[i]];
      batches := batches[slot := batches[slot] + [i]];
      assert [] + [i] == [i];
      assert |batches| > |before| ==> batches == before + [[i]];
      PlaceTracks(wasOpen, before, Lookup(keys), size, i);
    }
    assert order[..|order|] == order;
    PlaceAllCuts(order, Lookup(keys), size);
  }

  /** The table of open batches holds the last batch of every flag set. */
  ghost predicate Tracks<T>(open: map<string, nat>, bs: seq<seq<T>>, key: T -> string) {
    forall k :: LastOf(bs, key, k) == if k in open then Some(open[k]) else None
  }

  lemma PlaceAllNone<T>(key: T -> string, size: nat)
    ensures PlaceAll([], key, size) == []
  {
  }

  lemma TracksNothing<T>(key: T -> string)
    ensures Tracks<T>(map[], [], key)
  {
  }

  lemma PlaceAllAdd<T>(s: seq<T>, x: T, key: T -> string, size: nat)
    ensures PlaceAll(s + [x], key, size) == Place(PlaceAll(s, key, size), key, size, x)
  {
    assert (s + [x])[..|s|] == s;
  }

  lemma LastOfAdd<T>(bs: seq<seq<T>>, b: seq<T>, key: T -> string, k: string)
    ensures LastOf(bs + [b], key, k) == if KeyOf(b, key) == k then Some(|bs|) else LastOf(bs, key, k)
  {
    assert (bs + [b])[..|bs|] == bs;
  }

  lemma {:induction false} LastOfUpdate<T>(bs: seq<seq<T>>, j: nat, b: seq<T>, key: T -> string, k: string)
    requires j < |bs| && KeyOf(b, key) == KeyOf(bs[j], key)
    ensures LastOf(bs[j := b], key, k) == LastOf(bs, key, k)
  {
    var n := |bs| - 1;
    assert bs == bs[..n] + [bs[n]];
    if j == n {
      assert bs[j := b] == bs[..n] + [b];
      LastOfAdd(bs[..n], b, key, k);
    } else {
      assert bs[j := b] == bs[..n][j := b] + [bs[n]];
      LastOfAdd(bs[..n][j := b], bs[n], key, k);
      LastOfUpdate(bs[..n], j, b, key, k);
    }
    LastOfAdd(bs[..n], bs[n], key, k);
  }

  lemma TracksAt<T>(open: map<string, nat>, bs: seq<seq<T>>, key: T -> string, k: string)
    requires Tracks(open, bs, key)
    ensures k in open ==> open[k] < |bs| && KeyOf(bs[open[k]], key) == k
  {
  }

  /** What placing does to the batches and to the table of open ones. */
  lemma PlaceTracks<T(!new)>(open: map<string, nat>, bs: seq<seq<T>>, key: T -> string, size: nat, x: T)
    requires size > 0 && NoneEmpty(bs) && Tracks(open, bs, key)
    ensures var k, bs' := key(x), Place(bs, key, size, x);
            if k !in open || |bs[open[k]]| >= size then bs' == bs + [[x]] && Tracks(open[k := |bs|], bs', key)
            else bs' == bs[open[k] := bs[open[k]] + [x]] && Tracks(open, bs', key)
  {
    var k := key(x);
    if k !in open || |bs[open[k]]| >= size {
      forall k' ensures LastOf(bs + [[x]], key, k') == if k' == k then Some(|bs|) else LastOf(bs, key, k') {
        LastOfAdd(bs, [x], key, k');
      }
    } else {
      var j := open[k];
      forall k' ensures LastOf(bs[j := bs[j] + [x]], key, k') == LastOf(bs, key, k') {
        LastOfUpdate(bs, j, bs[j] + [x], key, k');
      }
    }
  }

  lemma BatchesOfKeyAdd<T>(bs: seq<seq<T>>, b: seq<T>, key: T -> string, k: string)
    ensures BatchesOfKey(bs + [b], key, k) == BatchesOfKey(bs, key, k) + if KeyOf(b, key) == k then [b] else []
  {
    assert (bs + [b])[..|bs|] == bs;
  }

  lemma OfKeyAdd<T>(s: seq<T>, x: T, key: T -> string, k: string)
    ensures OfKey(s + [x], key, k) == OfKey(s, key, k) + if key(x) == k then [x] else []
  {
    assert (s + [x])[..|s|] == s;
  }

  /** The last batch of a key is the last of the batches of that key. */
  lemma {:induction false} LastIsLast<T>(bs: seq<seq<T>>, key: T -> string, k: string)
    ensures match LastOf(bs, key, k)
            case None => BatchesOfKey(bs, key, k) == []
            case Some(j) => BatchesOfKey(bs, key, k) == BatchesOfKey(bs[..j], key, k) + [bs[j]]
  {
    if bs != [] && KeyOf(bs[|bs| - 1], key) != k {
      LastIsLast(bs[..|bs| - 1], key, k);
      var last := LastOf(bs, key, k);
      if last.Some? {
        assert bs[..|bs| - 1][..last.value] == bs[..last.value];
      }
    }
  }

  lemma BatchesOfKeyUpdate<T>(bs: seq<seq<T>>, j: nat, b: seq<T>, key: T -> string, k: string)
    requires LastOf(bs, key, KeyOf(b, key)) == Some(j)
    ensures BatchesOfKey(bs[j := b], key, k) ==
            if KeyOf(b, key) == k then BatchesOfKey(bs[..j], key, k) + [b] else BatchesOfKey(bs, key, k)
  {
    if KeyOf(b, key) == k {
      LastOfUpdate(bs, j, b, key, k);
      LastIsLast(bs[j := b], key, k);
      assert bs[j := b][..j] == bs[..j];
    } else {
      UpdateElsewhere(bs, j, b, key, k);
    }
  }

  lemma {:induction false} UpdateElsewhere<T>(bs: seq<seq<T>>, j: nat, b: seq<T>, key: T -> string, k: string)
    requires j < |bs| && KeyOf(b, key) == KeyOf(bs[j], key) != k
    ensures BatchesOfKey(bs[j := b], key, k) == BatchesOfKey(bs, key, k)
  {
    var n := |bs| - 1;
    assert bs == bs[..n] + [bs[n]];
    if j == n {
      assert bs[j := b] == bs[..n] + [b];
      BatchesOfKeyAdd(bs[..n], b, key, k);
    } else {
      assert bs[j := b] == bs[..n][j := b] + [bs[n]];
      BatchesOfKeyAdd(bs[..n][j := b], bs[n], key, k);
      UpdateElsewhere(bs[..n], j, b, key, k);
    }
    BatchesOfKeyAdd(bs[..n], bs[n], key, k);
  }

  /** Chunking one member more fills the last chunk or opens a new one. */
  lemma {:induction false} ChunksAdd<T>(s: seq<T>, x: T, size: nat)
    requires size > 0
    ensures var cs := Chunks(s, size);
            Chunks(s + [x], size) == if cs == [] || |cs[|cs| - 1]| >= size then cs + [[x]]
                                     else cs[..|cs| - 1] + [cs[|cs| - 1] + [x]]
    decreases |s|
  {
    if s == [] {
      assert s + [x] == [x];
    } else if |s| < size {
    } else if |s| == size {
      assert (s + [x])[..size] == s && (s + [x])[size..] == [x];
    } else {
      ChunksAdd(s[size..], x, size);
      assert (s + [x])[..size] == s[..size] && (s + [x])[size..] == s[size..] + [x];
    }
  }

  /** Chunking keeps the members in order, in full chunks but for the last. */
  lemma {:induction false} ChunksArePieces<T>(s: seq<T>, size: nat)
    requires size > 0
    ensures Flat(Chunks(s, size)) == s
    ensures forall i | 0 <= i < |Chunks(s, size)| :: 0 < |Chunks(s, size)[i]| <= size
    ensures forall i | 0 <= i < |Chunks(s, size)| - 1 :: |Chunks(s, size)[i]| == size
    ensures |Chunks(s, size)| == (|s| + size - 1) / size
    decreases |s|
  {
    if |s| > size {
      ChunksArePieces(s[size..], size);
      FlatCons(s[..size], Chunks(s[size..], size));
      DivStep(|s| - 1, size);
    } else if s != [] {
      assert Flat([s]) == Flat([]) + s;
      DivSmall(|s| - 1, size);
    } else {
      DivSmall(size - 1, size);
    }
  }

  function Flat<T>(bs: seq<seq<T>>): seq<T> { if bs == [] then [] else Flat(bs[..|bs| - 1]) + bs[|bs| - 1] }

  lemma {:induction false} FlatCons<T>(b: seq<T>, bs: seq<seq<T>>)
    ensures Flat([b] + bs) == b + Flat(bs)
  {
    if bs == [] {
      assert [b] + bs == [b];
      assert Flat([b]) == Flat([]) + b;
    } else {
      assert ([b] + bs)[..|bs|] == [b] + bs[..|bs| - 1];
      FlatCons(b, bs[..|bs| - 1]);
    }
  }

  lemma {:induction false} PlaceAllCuts<T(!new)>(order: seq<T>, key: T -> string, size: nat)
    requires size > 0
    ensures Cut(PlaceAll(order, key, size), order, key, size)
  {
    if order != [] {
      var s, x := order[..|order| - 1], order[|order| - 1];
      PlaceAllCuts(s, key, size);
      var bs := PlaceAll(s, key, size);
      var last := LastOf(bs, key, key(x));
      forall k ensures BatchesOfKey(Place(bs, key, size, x), key, k) == Chunks(OfKey(order, key, k), size) {
        PlaceChunks(bs, s, key, size, x, k);
        assert s + [x] == order;
      }
      PlaceKeepsFirsts(bs, s, key, size, x);
      assert s + [x] == order;
    }
  }

  lemma PlaceChunks<T(!new)>(bs: seq<seq<T>>, s: seq<T>, key: T -> string, size: nat, x: T, k: string)
    requires size > 0 && Formed(bs, key, size) && BatchesOfKey(bs, key, k) == Chunks(OfKey(s, key, k), size)
    ensures BatchesOfKey(Place(bs, key, size, x), key, k) == Chunks(OfKey(s + [x], key, k), size)
  {
    var last := LastOf(bs, key, key(x));
    OfKeyAdd(s, x, key, k);
    LastIsLast(bs, key, key(x));
    ChunksAdd(OfKey(s, key, k), x, size);
    if last.Some? && |bs[last.value]| < size {
      BatchesOfKeyUpdate(bs, last.value, bs[last.value] + [x], key, k);
    } else {
      BatchesOfKeyAdd(bs, [x], key, k);
    }
    if key(x) != k {
      assert OfKey(s, key, k) + [] == OfKey(s, key, k);
    }
  }

  lemma PlaceKeepsFirsts<T(!new)>(bs: seq<seq<T>>, s: seq<T>, key: T -> string, size: nat, x: T)
    requires size > 0 && Formed(bs, key, size) && Subsequence(Firsts(bs), s)
    ensures Formed(Place(bs, key, size, x), key, size)
    ensures Subsequence(Firsts(Place(bs, key, size, x)), s + [x])
  {
    var last, bs' := LastOf(bs, key, key(x)), Place(bs, key, size, x);
    assert (s + [x])[..|s|] == s;
    if last.Some? && |bs[last.value]| < size {
      assert Firsts(bs') == Firsts(bs);
    } else {
      assert Firsts(bs') == Firsts(bs) + [x];
      assert Firsts(bs')[..|bs|] == Firsts(bs);
    }
  }

  // ---- how many, and of what ----

  lemma {:induction false} FlatOfKey<T(!new)>(bs: seq<seq<T>>, key: T -> string, size: nat, k: string)
    requires Formed(bs, key, size)
    ensures OfKey(Flat(bs), key, k) == Flat(BatchesOfKey(bs, key, k))
  {
    if bs != [] {
      var init, b := bs[..|bs| - 1], bs[|bs| - 1];
      FormedInit(bs, key, size);
      Sequences.ButLast(bs);
      hide *;
      FlatOfKey(init, key, size, k);
      OfKeyConcat(Flat(init), b, key, k);
      OfKeyUniform(b, key, k);
      var mine := BatchesOfKey(init, key, k);
      FlatAdd(init, b);
      FlatAdd(mine, b);
      BatchesOfKeyAdd(init, b, key, k);
      Sequences.AddNothing(Flat(mine));
      Sequences.AddNothing(mine);
    }
  }

  lemma FormedInit<T>(bs: seq<seq<T>>, key: T -> string, size: nat)
    requires Formed(bs, key, size) && bs != []
    ensures Formed(bs[..|bs| - 1], key, size) && bs[|bs| - 1] != [] && OneKey(bs[|bs| - 1], key)
  {
  }

  lemma FlatAdd<T>(bs: seq<seq<T>>, b: seq<T>)
    ensures Flat(bs + [b]) == Flat(bs) + b
  {
    assert (bs + [b])[..|bs|] == bs;
  }

  lemma {:induction false} OfKeyConcat<T>(a: seq<T>, b: seq<T>, key: T -> string, k: string)
    ensures OfKey(a + b, key, k) == OfKey(a, key, k) + OfKey(b, key, k)
  {
    if b == [] {
      assert a + b == a;
    } else {
      assert (a + b)[..|a + b| - 1] == a + b[..|b| - 1];
      OfKeyConcat(a, b[..|b| - 1], key, k);
    }
  }

  lemma {:induction false} OfKeyUniform<T>(b: seq<T>, key: T -> string, k: string)
    requires b != [] && OneKey(b, key)
    ensures OfKey(b, key, k) == if KeyOf(b, key) == k then b else []
  {
    var init := b[..|b| - 1];
    if init != [] {
      assert forall x <- init :: x in b;
      OfKeyUniform(init, key, k);
    }
    assert b == init + [b[|b| - 1]];
  }

  /** Within every flag set the batches, read one after the other, are the inputs in canonical order: nothing is
      lost, doubled or reordered; and there are as many as a plain chunking needs. */
  lemma CutPartitions<T(!new)>(bs: seq<seq<T>>, order: seq<T>, key: T -> string, size: nat, k: string)
    requires size > 0 && Cut(bs, order, key, size)
    ensures OfKey(Flat(bs), key, k) == OfKey(order, key, k)
    ensures |BatchesOfKey(bs, key, k)| == (|OfKey(order, key, k)| + size - 1) / size
  {
    FlatOfKey(bs, key, size, k);
    ChunksArePieces(OfKey(order, key, k), size);
  }

  /** The sum, over the flag sets ks, of the batches each of them needs. */
  function Needed<T>(ks: seq<string>, order: seq<T>, key: T -> string, size: nat): nat
    requires size > 0
  {
    if ks == [] then 0
    else Needed(ks[..|ks| - 1], order, key, size) + (|OfKey(order, key, ks[|ks| - 1])| + size - 1) / size
  }

  function CountedBy<T>(ks: seq<string>, bs: seq<seq<T>>, key: T -> string): nat {
    if ks == [] then 0 else CountedBy(ks[..|ks| - 1], bs, key) + |BatchesOfKey(bs, key, ks[|ks| - 1])|
  }

  lemma {:induction false} CountedByAdd<T>(ks: seq<string>, bs: seq<seq<T>>, b: seq<T>, key: T -> string)
    requires forall i, j | 0 <= i < j < |ks| :: ks[i] != ks[j]
    ensures CountedBy(ks, bs + [b], key) == CountedBy(ks, bs, key) + if KeyOf(b, key) in ks then 1 else 0
  {
    if ks != [] {
      CountedByAdd(ks[..|ks| - 1], bs, b, key);
      BatchesOfKeyAdd(bs, b, key, ks[|ks| - 1]);
      assert ks == ks[..|ks| - 1] + [ks[|ks| - 1]];
    }
  }

  lemma {:induction false} CountedByNothing<T>(ks: seq<string>, key: T -> string)
    ensures CountedBy<T>(ks, [], key) == 0
  {
    if ks != [] {
      CountedByNothing(ks[..|ks| - 1], key);
    }
  }

  lemma {:induction false} CountedByAll<T>(ks: seq<string>, bs: seq<seq<T>>, key: T -> string)
    requires (forall i, j | 0 <= i < j < |ks| :: ks[i] != ks[j]) && forall b <- bs :: KeyOf(b, key) in ks
    ensures CountedBy(ks, bs, key) == |bs|
  {
    if bs == [] {
      CountedByNothing<T>(ks, key);
    } else {
      assert bs == bs[..|bs| - 1] + [bs[|bs| - 1]];
      CountedByAll(ks, bs[..|bs| - 1], key);
      CountedByAdd(ks, bs[..|bs| - 1], bs[|bs| - 1], key);
    }
  }

  lemma {:induction false} CountedIsNeeded<T(!new)>(ks: seq<string>, bs: seq<seq<T>>, order: seq<T>, key: T -> string,
                                                    size: nat)
    requires size > 0 && Cut(bs, order, key, size)
    ensures CountedBy(ks, bs, key) == Needed(ks, order, key, size)
  {
    if ks != [] {
      CountedIsNeeded(ks[..|ks| - 1], bs, order, key, size);
      CutPartitions(bs, order, key, size, ks[|ks| - 1]);
    }
  }

  lemma {:induction false} SubsequenceMembers<T>(a: seq<T>, b: seq<T>)
    requires Subsequence(a, b)
    ensures forall x <- a :: x in b
  {
    if a != [] {
      assert a == a[..|a| - 1] + [a[|a| - 1]];
      assert forall x <- b[..|b| - 1] :: x in b;
      if a[|a| - 1] == b[|b| - 1] && Subsequence(a[..|a| - 1], b[..|b| - 1]) {
        SubsequenceMembers(a[..|a| - 1], b[..|b| - 1]);
      } else {
        SubsequenceMembers(a, b[..|b| - 1]);
      }
    }
  }

  /** The number of batches is the sum of ceil(count / size) over the flag sets. */
  lemma BatchCount<T(!new)>(ks: seq<string>, bs: seq<seq<T>>, order: seq<T>, key: T -> string, size: nat)
    requires size > 0 && Cut(bs, order, key, size)
    requires (forall i, j | 0 <= i < j < |ks| :: ks[i] != ks[j]) && forall x <- order :: key(x) in ks
    ensures |bs| == Needed(ks, order, key, size)
  {
    SubsequenceMembers(Firsts(bs), order);
    forall b <- bs ensures KeyOf(b, key) in ks {
      var i :| 0 <= i < |bs| && bs[i] == b;
      assert Firsts(bs)[i] in order;
    }
    CountedByAll(ks, bs, key);
    CountedIsNeeded(ks, bs, order, key, size);
  }

  // ---- the canonical order ----

  /** `<=` on std::string. */
  predicate PathLe(a: string, b: string) {
    a == [] || (b != [] && (a[0] < b[0] || (a[0] == b[0] && PathLe(a[1..], b[1..]))))
  }

  /** By the first character in which they differ, or by length when there is none. */
  lemma {:induction false} PathLeExactlyWhen(a: string, b: string)
    ensures PathLe(a, b) <==>
            a <= b || exists k | 0 <= k < |a| && k < |b| :: a[..k] == b[..k] && a[k] < b[k]
  {
    if a != [] && b != [] {
      var a', b' := a[1..], b[1..];
      assert a == [a[0]] + a' && b == [b[0]] + b';
      PathLeExactlyWhen(a', b');
      if a[0] < b[0] {
        assert a[..0] == b[..0];
      }
      if a[0] == b[0] {
        if k :| 0 <= k < |a'| && k < |b'| && a'[..k] == b'[..k] && a'[k] < b'[k] {
          assert a[..k + 1] == [a[0]] + a'[..k] && b[..k + 1] == [b[0]] + b'[..k];
        }
        if k :| 0 <= k < |a| && k < |b| && a[..k] == b[..k] && a[k] < b[k] {
          assert a'[..k - 1] == a[..k][1..] && b'[..k - 1] == b[..k][1..];
        }
      } else if k :| 0 <= k < |a| && k < |b| && a[..k] == b[..k] && a[k] < b[k] {
        FirstOfEqual(a, b, k);
      }
    }
  }

  lemma FirstOfEqual(a: string, b: string, k: nat)
    requires k < |a| && k < |b| && a[..k] == b[..k]
    ensures k > 0 ==> a[0] == b[0]
  {
    if k > 0 {
      assert a[..k][0] == a[0] && b[..k][0] == b[0];
    }
  }

  lemma {:induction false} PathLeIsTotal(a: string, b: string)
    ensures PathLe(a, b) || PathLe(b, a)
    ensures PathLe(a, b) && PathLe(b, a) ==> a == b
  {
    if a != [] && b != [] && a[0] == b[0] {
      PathLeIsTotal(a[1..], b[1..]);
      assert a == [a[0]] + a[1..] && b == [b[0]] + b[1..];
    }
  }

  lemma {:induction false} PathLeIsTransitive(a: string, b: string, c: string)
    requires PathLe(a, b) && PathLe(b, c)
    ensures PathLe(a, c)
  {
    if a != [] && a[0] == b[0] && b[0] == c[0] {
      PathLeIsTransitive(a[1..], b[1..], c[1..]);
    }
  }

  /** `std::stable_sort` of the indices by path: every index once, by path, ties in index order. */
  ghost predicate Canonical(order: seq<nat>, paths: seq<string>) {
    && |order| == |paths|
    && InRange(order, |paths|)
    && (forall i | 0 <= i < |paths| :: i in order)
    && forall a, b | 0 <= a < b < |order| ::
         PathLe(paths[order[a]], paths[order[b]]) && (paths[order[a]] == paths[order[b]] ==> order[a] < order[b])
  }

  ghost function Paths(order: seq<nat>, paths: seq<string>): seq<string>
    requires InRange(order, |paths|)
  {
    seq(|order|, a requires 0 <= a < |order| => paths[order[a]])
  }

  ghost predicate Ascending(s: seq<string>) {
    forall a, b | 0 <= a < b < |s| :: PathLe(s[a], s[b]) && s[a] != s[b]
  }

  ghost predicate SameMembers(s: seq<string>, t: seq<string>) { forall p :: p in s <==> p in t }

  /** A set of paths has one ascending listing. */
  lemma {:induction false} AscendingIsUnique(s: seq<string>, t: seq<string>)
    requires Ascending(s) && Ascending(t) && SameMembers(s, t)
    ensures s == t
  {
    assert t != [] ==> t[0] in t;
    if s != [] {
      assert s[0] in t && t[|t| - 1] in s;
      var s', t' := s[..|s| - 1], t[..|t| - 1];
      LastIsGreatest(s, t);
      forall p: string ensures p in s' <==> p in t' {
        ButLast(s, p);
        ButLast(t, p);
      }
      AscendingIsUnique(s', t');
      assert s == s' + [s[|s| - 1]] && t == t' + [t[|t| - 1]];
    }
  }

  lemma LastIsGreatest(s: seq<string>, t: seq<string>)
    requires Ascending(s) && Ascending(t) && SameMembers(s, t) && s != [] && t != []
    ensures s[|s| - 1] == t[|t| - 1]
  {
    var x, y := s[|s| - 1], t[|t| - 1];
    assert x in s && y in t;
    assert x in t && y in s;
    var a :| 0 <= a < |s| && s[a] == y;
    var b :| 0 <= b < |t| && t[b] == x;
    PathLeIsTotal(x, y);
  }

  lemma ButLast(s: seq<string>, p: string)
    requires Ascending(s) && s != []
    ensures p in s[..|s| - 1] <==> p in s && p != s[|s| - 1]
  {
    assert s == s[..|s| - 1] + [s[|s| - 1]];
  }

  lemma CanonicalAscends(order: seq<nat>, paths: seq<string>)
    requires Canonical(order, paths) && forall i, j | 0 <= i < j < |paths| :: paths[i] != paths[j]
    ensures Ascending(Paths(order, paths)) && SameMembers(Paths(order, paths), paths)
  {
    var s := Paths(order, paths);
    forall p ensures p in s <==> p in paths {
      if p in paths {
        var i :| 0 <= i < |paths| && paths[i] == p;
        assert i in order;
        var a :| 0 <= a < |order| && order[a] == i;
        assert s[a] == p;
      }
      if p in s {
        var a :| 0 <= a < |s| && s[a] == p;
        assert order[a] in order;
      }
    }
  }

  /** Batching does not look at the members, only at their keys: it commutes with renaming them. */
  function Renamed<T, U>(bs: seq<seq<T>>, name: T -> U): seq<seq<U>> {
    seq(|bs|, i requires 0 <= i < |bs| => Names(bs[i], name))
  }

  function Names<T, U>(s: seq<T>, name: T -> U): seq<U> { seq(|s|, i requires 0 <= i < |s| => name(s[i])) }

  lemma {:induction false} LastOfRenamed<T, U>(bs: seq<seq<T>>, name: T -> U, key: T -> string, key': U -> string,
                                               k: string)
    requires forall i | 0 <= i < |bs| :: bs[i] != [] && key'(name(bs[i][0])) == key(bs[i][0])
    ensures LastOf(Renamed(bs, name), key', k) == LastOf(bs, key, k)
  {
    if bs != [] {
      assert Renamed(bs, name)[..|bs| - 1] == Renamed(bs[..|bs| - 1], name);
      LastOfRenamed(bs[..|bs| - 1], name, key, key', k);
    }
  }

  lemma {:induction false} PlaceAllRenamed<T(!new), U(!new)>(order: seq<T>, name: T -> U, key: T -> string,
                                                             key': U -> string, size: nat)
    requires size > 0 && forall x <- order :: key'(name(x)) == key(x)
    ensures PlaceAll(Names(order, name), key', size) == Renamed(PlaceAll(order, key, size), name)
  {
    if order != [] {
      var s, x := order[..|order| - 1], order[|order| - 1];
      PlaceAllRenamed(s, name, key, key', size);
      assert Names(order, name)[..|s|] == Names(s, name);
      var bs := PlaceAll(s, key, size);
      PlaceAllCuts(s, key, size);
      SubsequenceMembers(Firsts(bs), s);
      forall i | 0 <= i < |bs| ensures bs[i] != [] && key'(name(bs[i][0])) == key(bs[i][0]) {
        assert Firsts(bs)[i] in s;
        assert bs[i][0] in order;
      }
      LastOfRenamed(bs, name, key, key', key(x));
      PlaceRenamed(bs, name, key, key', size, x);
    }
  }

  lemma PlaceRenamed<T, U>(bs: seq<seq<T>>, name: T -> U, key: T -> string, key': U -> string, size: nat, x: T)
    requires key'(name(x)) == key(x) && LastOf(Renamed(bs, name), key', key(x)) == LastOf(bs, key, key(x))
    ensures Place(Renamed(bs, name), key', size, name(x)) == Renamed(Place(bs, key, size, x), name)
  {
    var last := LastOf(bs, key, key(x));
    if last.Some? && |bs[last.value]| < size {
      assert Names(bs[last.value] + [x], name) == Names(bs[last.value], name) + [name(x)];
    } else {
      assert Names([x], name) == [name(x)];
      assert Renamed(bs + [[x]], name) == Renamed(bs, name) + [[name(x)]];
    }
  }

  function PathAt(paths: seq<string>): nat -> string { (i: nat) => if i < |paths| then paths[i] else "" }

  /** Two listings of the same distinct files, whose flags depend on the file alone, are cut into the same batches. */
  lemma BatchesDependOnTheSet(order: seq<nat>, paths: seq<string>, order': seq<nat>, paths': seq<string>,
                              flags: string -> string, keys: seq<string>, keys': seq<string>, size: nat)
    requires size > 0 && Canonical(order, paths) && Canonical(order', paths') && SameMembers(paths, paths')
    requires forall i, j | 0 <= i < j < |paths| :: paths[i] != paths[j]
    requires forall i, j | 0 <= i < j < |paths'| :: paths'[i] != paths'[j]
    requires |keys| == |paths| && forall i | 0 <= i < |paths| :: keys[i] == flags(paths[i])
    requires |keys'| == |paths'| && forall i | 0 <= i < |paths'| :: keys'[i] == flags(paths'[i])
    ensures Renamed(PlaceAll(order, Lookup(keys), size), PathAt(paths))
         == Renamed(PlaceAll(order', Lookup(keys'), size), PathAt(paths'))
  {
    CanonicalAscends(order, paths);
    CanonicalAscends(order', paths');
    AscendingIsUnique(Paths(order, paths), Paths(order', paths'));
    assert Names(order, PathAt(paths)) == Paths(order, paths);
    assert Names(order', PathAt(paths')) == Paths(order', paths');
    PlaceAllRenamed(order, PathAt(paths), Lookup(keys), flags, size);
    PlaceAllRenamed(order', PathAt(paths'), Lookup(keys'), flags, size);
  }
}
