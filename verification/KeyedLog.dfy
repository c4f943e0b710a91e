/**
 Ordered lists whose entries carry a key, updated by replacing: putting a batch
 drops every entry that has one of the batch's keys and appends the batch. The
 vector store replaces documents this way, and customer memory replaces deals.
 */
module KeyedLog {

  function Keys<K(==), V>(batch: seq<(K, V)>): set<K> {
    set i | 0 <= i < |batch| :: batch[i].0
  }

  function Without<K(==), V>(xs: seq<(K, V)>, gone: set<K>): seq<(K, V)> {
    if xs == [] then []
    else Without(xs[..|xs| - 1], gone) + if xs[|xs| - 1].0 in gone then [] else [xs[|xs| - 1]]
  }

  function Put<K(==), V>(xs: seq<(K, V)>, batch: seq<(K, V)>): seq<(K, V)> {
    Without(xs, Keys(batch)) + batch
  }

  function PutAll<K(==), V>(xs: seq<(K, V)>, batches: seq<seq<(K, V)>>): seq<(K, V)> {
    if batches == [] then xs else Put(PutAll(xs, batches[..|batches| - 1]), batches[|batches| - 1])
  }

  function AllKeys<K(==), V>(batches: seq<seq<(K, V)>>): set<K> {
    if batches == [] then {} else AllKeys(batches[..|batches| - 1]) + Keys(batches[|batches| - 1])
  }

  lemma {:induction false} WithoutAppend<K, V>(a: seq<(K, V)>, b: seq<(K, V)>, gone: set<K>)
    ensures Without(a + b, gone) == Without(a, gone) + Without(b, gone)
  {
    if b == [] {
      assert a + b == a;
    } else {
      assert (a + b)[..|a + b| - 1] == a + b[..|b| - 1];
      WithoutAppend(a, b[..|b| - 1], gone);
    }
  }

  lemma {:induction false} WithoutTwice<K, V>(xs: seq<(K, V)>, gone: set<K>, more: set<K>)
    ensures Without(Without(xs, gone), more) == Without(xs, gone + more)
  {
    if xs != [] {
      var n := |xs| - 1;
      WithoutTwice(xs[..n], gone, more);
      WithoutAppend(Without(xs[..n], gone), if xs[n].0 in gone then [] else [xs[n]], more);
      if xs[n].0 !in gone {
        assert [xs[n]][..0] == [];
      }
    }
  }

  /** Removing keys leaves exactly the entries of the other keys, in order. */
  lemma {:induction false} WithoutNone<K, V>(xs: seq<(K, V)>, gone: set<K>)
    requires forall i | 0 <= i < |xs| :: xs[i].0 !in gone
    ensures Without(xs, gone) == xs
  {
    if xs != [] {
      WithoutNone(xs[..|xs| - 1], gone);
    }
  }

  lemma PutNothing<K, V>(xs: seq<(K, V)>)
    ensures Put(xs, []) == xs
  {
    assert Keys<K, V>([]) == {};
    WithoutNone(xs, {});
  }

  lemma {:induction false} WithoutAll<K, V>(xs: seq<(K, V)>, gone: set<K>)
    requires forall i | 0 <= i < |xs| :: xs[i].0 in gone
    ensures Without(xs, gone) == []
  {
    if xs != [] {
      WithoutAll(xs[..|xs| - 1], gone);
    }
  }

  lemma {:induction false} WithoutMember<K, V>(xs: seq<(K, V)>, gone: set<K>, x: (K, V))
    ensures x in Without(xs, gone) <==> x in xs && x.0 !in gone
  {
    if xs != [] {
      var n := |xs| - 1;
      WithoutMember(xs[..n], gone, x);
      assert xs == xs[..n] + [xs[n]];
    }
  }

  /**
   What a sequence of batches leaves behind: the old entries of untouched keys in
   their old order, then what the batches alone would have produced.
   */
  lemma {:induction false} PutAllClosedForm<K, V>(xs: seq<(K, V)>, batches: seq<seq<(K, V)>>)
    ensures PutAll(xs, batches) == Without(xs, AllKeys(batches)) + PutAll([], batches)
  {
    if batches == [] {
      WithoutNone(xs, {});
    } else {
      var n := |batches| - 1;
      var before, last := batches[..n], batches[n];
      PutAllClosedForm(xs, before);
      WithoutAppend(Without(xs, AllKeys(before)), PutAll([], before), Keys(last));
      WithoutTwice(xs, AllKeys(before), Keys(last));
    }
  }

  /** Of each batch, the entries whose keys no later batch has. */
  function LastOccurrences<K(==), V>(batches: seq<seq<(K, V)>>): seq<(K, V)> {
    if batches == [] then []
    else Without(batches[0], AllKeys(batches[1..])) + LastOccurrences(batches[1..])
  }

  lemma {:induction false} PutAllFromFront<K, V>(xs: seq<(K, V)>, batches: seq<seq<(K, V)>>)
    requires batches != []
    ensures PutAll(xs, batches) == PutAll(Put(xs, batches[0]), batches[1..])
  {
    var n := |batches| - 1;
    if n > 0 {
      PutAllFromFront(xs, batches[..n]);
      assert batches[..n][1..] == batches[1..][..n - 1];
      assert batches[1..][n - 1] == batches[n];
    } else {
      assert batches[..0] == [] && batches[1..] == [];
    }
  }

  /** Batches put into an empty list leave their last occurrences, in order. */
  lemma {:induction false} PutAllKeepsLast<K, V>(batches: seq<seq<(K, V)>>)
    ensures PutAll([], batches) == LastOccurrences(batches)
  {
    if batches != [] {
      PutAllFromFront([], batches);
      assert Put([], batches[0]) == batches[0];
      PutAllClosedForm(batches[0], batches[1..]);
      PutAllKeepsLast(batches[1..]);
    }
  }

  lemma {:induction false} PutAllKeys<K, V>(batches: seq<seq<(K, V)>>)
    ensures forall x | x in PutAll([], batches) :: x.0 in AllKeys(batches)
  {
    if batches != [] {
      var n := |batches| - 1;
      PutAllKeys(batches[..n]);
      forall x | x in PutAll([], batches) ensures x.0 in AllKeys(batches) {
        if x in batches[n] {
          var i :| 0 <= i < |batches[n]| && batches[n][i] == x;
          assert batches[n][i].0 in Keys(batches[n]);
        } else {
          WithoutMember(PutAll([], batches[..n]), Keys(batches[n]), x);
        }
      }
    } else {
      assert PutAll<K, V>([], batches) == [];
    }
  }

  /** Replaying the same batches changes nothing, whatever was there before. */
  lemma PutAllTwice<K, V>(xs: seq<(K, V)>, batches: seq<seq<(K, V)>>)
    ensures PutAll(PutAll(xs, batches), batches) == PutAll(xs, batches)
  {
    PutAllClosedForm(xs, batches);
    PutAllClosedForm(PutAll(xs, batches), batches);
    PutAllKeys(batches);
    WithoutOwn(xs, PutAll([], batches), AllKeys(batches));
  }

  lemma WithoutOwn<K, V>(xs: seq<(K, V)>, own: seq<(K, V)>, keys: set<K>)
    requires forall x | x in own :: x.0 in keys
    ensures Without(Without(xs, keys) + own, keys) == Without(xs, keys)
  {
    WithoutAppend(Without(xs, keys), own, keys);
    WithoutTwice(xs, keys, keys);
    assert keys + keys == keys;
    WithoutAll(own, keys);
  }

  // -------------------------------------------------- one key at a time

  function Of<K(==), V>(xs: seq<(K, V)>, key: K): seq<(K, V)> {
    if xs == [] then []
    else Of(xs[..|xs| - 1], key) + if xs[|xs| - 1].0 == key then [xs[|xs| - 1]] else []
  }

  lemma {:induction false} OfAppend<K, V>(a: seq<(K, V)>, b: seq<(K, V)>, key: K)
    ensures Of(a + b, key) == Of(a, key) + Of(b, key)
  {
    if b == [] {
      assert a + b == a;
    } else {
      assert (a + b)[..|a + b| - 1] == a + b[..|b| - 1];
      OfAppend(a, b[..|b| - 1], key);
    }
  }

  lemma {:induction false} OfWithout<K, V>(xs: seq<(K, V)>, gone: set<K>, key: K)
    ensures Of(Without(xs, gone), key) == if key in gone then [] else Of(xs, key)
  {
    if xs != [] {
      var n := |xs| - 1;
      OfWithout(xs[..n], gone, key);
      OfAppend(Without(xs[..n], gone), if xs[n].0 in gone then [] else [xs[n]], key);
      assert [xs[n]][..0] == [];
    }
  }

  /** As a map from keys to entries: a put replaces its keys and keeps the others. */
  lemma PutRefinesMap<K, V>(xs: seq<(K, V)>, batch: seq<(K, V)>, key: K)
    ensures Of(Put(xs, batch), key) == if key in Keys(batch) then Of(batch, key) else Of(xs, key)
  {
    OfAppend(Without(xs, Keys(batch)), batch, key);
    OfWithout(xs, Keys(batch), key);
    if key !in Keys(batch) {
      OfNone(batch, key);
    }
  }

  /** A batch of one key replaces what that key had. */
  lemma PutOneKey<K, V>(xs: seq<(K, V)>, batch: seq<(K, V)>, own: K, key: K)
    requires batch != [] && forall x | x in batch :: x.0 == own
    ensures Of(Put(xs, batch), key) == if own == key then batch else Of(xs, key)
  {
    PutRefinesMap(xs, batch, key);
    assert batch[0].0 in Keys(batch);
    if own == key {
      OfAll(batch, key);
    }
  }

  lemma {:induction false} OfAll<K, V>(xs: seq<(K, V)>, key: K)
    requires forall i | 0 <= i < |xs| :: xs[i].0 == key
    ensures Of(xs, key) == xs
  {
    if xs != [] {
      OfAll(xs[..|xs| - 1], key);
    }
  }

  lemma {:induction false} OfNone<K, V>(xs: seq<(K, V)>, key: K)
    requires key !in Keys(xs)
    ensures Of(xs, key) == []
  {
    if xs != [] {
      var n := |xs| - 1;
      assert xs[n].0 in Keys(xs);
      forall k | k in Keys(xs[..n]) ensures k in Keys(xs) {
        var i :| 0 <= i < n && xs[..n][i].0 == k;
        assert xs[i].0 == k;
      }
      OfNone(xs[..n], key);
    }
  }
}
