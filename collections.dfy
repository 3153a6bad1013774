/**
 * The array operations the application applies to its flat record
 * collections: `filter`, `findIndex` by id, the find-then-overwrite-or-push
 * "upsert" used by both save functions, and removal of every record with an
 * id.  Records are generic; `key` projects a record onto its id.
 */
module Collections {

  /** `s.filter(p)`. */
  function Filter<T>(s: seq<T>, p: T -> bool): (r: seq<T>)
    ensures |r| <= |s|
    ensures forall i :: 0 <= i < |r| ==> r[i] in s && p(r[i])
    ensures forall i :: 0 <= i < |s| && p(s[i]) ==> s[i] in r
    decreases |s|
  {
    if s == [] then [] else (if p(s[0]) then [s[0]] else []) + Filter(s[1..], p)
  }

  /** Filtering keeps the relative order: it distributes over concatenation. */
  lemma {:induction false} FilterAppend<T>(a: seq<T>, b: seq<T>, p: T -> bool)
    ensures Filter(a + b, p) == Filter(a, p) + Filter(b, p)
    decreases |a|
  {
    if a == [] {
      assert a + b == b;
    } else {
      assert (a + b)[1..] == a[1..] + b;
      FilterAppend(a[1..], b, p);
    }
  }

  /** A filter that no element passes is empty. */
  lemma {:induction false} FilterNone<T>(s: seq<T>, p: T -> bool)
    requires forall i :: 0 <= i < |s| ==> !p(s[i])
    ensures Filter(s, p) == []
    decreases |s|
  {
    if s != [] {
      FilterNone(s[1..], p);
    }
  }

  /** A filter that every element passes is the identity. */
  lemma {:induction false} FilterAll<T>(s: seq<T>, p: T -> bool)
    requires forall i :: 0 <= i < |s| ==> p(s[i])
    ensures Filter(s, p) == s
    decreases |s|
  {
    if s != [] {
      FilterAll(s[1..], p);
      assert [s[0]] + s[1..] == s;
    }
  }

  /** Filtering a collection whose ids are unique keeps them unique. */
  lemma {:induction false} FilterKeepsUniqueIds<T>(s: seq<T>, key: T -> string, p: T -> bool)
    requires UniqueIds(s, key)
    ensures UniqueIds(Filter(s, p), key)
    decreases |s|
  {
    if s != [] {
      var tail := Filter(s[1..], p);
      FilterKeepsUniqueIds(s[1..], key, p);
      if p(s[0]) {
        var r := [s[0]] + tail;
        forall a, b | 0 <= a < b < |r| ensures key(r[a]) != key(r[b]) {
          if a == 0 {
            var j :| 0 <= j < |s[1..]| && s[1..][j] == r[b];
            assert s[j + 1] == r[b];
          } else {
            assert r[a] == tail[a - 1] && r[b] == tail[b - 1];
          }
        }
      } else {
        assert Filter(s, p) == tail;
      }
    }
  }

  /** True when some record carries the id (`s.some(x => x.id === id)`). */
  predicate HasId<T>(s: seq<T>, key: T -> string, id: string) {
    exists i :: 0 <= i < |s| && key(s[i]) == id
  }

  /** No two records share an id. */
  predicate UniqueIds<T>(s: seq<T>, key: T -> string) {
    forall i, j :: 0 <= i < j < |s| ==> key(s[i]) != key(s[j])
  }

  /** `s.findIndex(x => key(x) === id)`: the first index holding the id, or -1. */
  function FindIndex<T>(s: seq<T>, key: T -> string, id: string): (i: int)
    ensures -1 <= i < |s|
    ensures i >= 0 ==> key(s[i]) == id && forall j :: 0 <= j < i ==> key(s[j]) != id
    ensures i == -1 <==> !HasId(s, key, id)
    decreases |s|
  {
    if s == [] then -1
    else if key(s[0]) == id then 0
    else
      var k := FindIndex(s[1..], key, id);
      assert HasId(s[1..], key, id) ==> HasId(s, key, id) by {
        if HasId(s[1..], key, id) {
          var j :| 0 <= j < |s[1..]| && key(s[1..][j]) == id;
          assert key(s[j + 1]) == id;
        }
      }
      assert HasId(s, key, id) ==> HasId(s[1..], key, id) by {
        if HasId(s, key, id) {
          var j :| 0 <= j < |s| && key(s[j]) == id;
          assert j > 0 && key(s[1..][j - 1]) == id;
        }
      }
      if k < 0 then -1 else k + 1
  }

  /** Overwrite the first record with the same id, or append the record. */
  function Upsert<T>(s: seq<T>, key: T -> string, x: T): seq<T> {
    var i := FindIndex(s, key, key(x));
    if i >= 0 then s[i := x] else s + [x]
  }

  /** When the id is held, the first record holding it is replaced in place and nothing else moves. */
  lemma UpsertReplacesFirst<T>(s: seq<T>, key: T -> string, x: T, i: nat)
    requires i < |s| && key(s[i]) == key(x)
    requires forall j :: 0 <= j < i ==> key(s[j]) != key(x)
    ensures |Upsert(s, key, x)| == |s|
    ensures Upsert(s, key, x)[i] == x
    ensures forall j :: 0 <= j < |s| && j != i ==> Upsert(s, key, x)[j] == s[j]
  {
    assert FindIndex(s, key, key(x)) == i;
  }

  /** When the id is new, the record is appended at the end. */
  lemma UpsertAppendsNew<T>(s: seq<T>, key: T -> string, x: T)
    requires !HasId(s, key, key(x))
    ensures Upsert(s, key, x) == s + [x]
  {
  }

  /** Saving the same record twice is saving it once. */
  lemma UpsertIdempotent<T>(s: seq<T>, key: T -> string, x: T)
    ensures Upsert(Upsert(s, key, x), key, x) == Upsert(s, key, x)
  {
    var i := FindIndex(s, key, key(x));
    var u := Upsert(s, key, x);
    if i >= 0 {
      UpsertReplacesFirst(u, key, x, i);
      assert u[i := x] == u;
    } else {
      assert u == s + [x];
      var k := FindIndex(u, key, key(x));
      assert key(u[|s|]) == key(x);
      assert k == |s| by {
        assert forall j :: 0 <= j < |s| ==> key(u[j]) != key(x) by {
          forall j | 0 <= j < |s| ensures key(u[j]) != key(x) {
            assert u[j] == s[j];
          }
        }
      }
      assert u[|s| := x] == u;
    }
  }

  /** An upsert keeps the ids unique and makes the record's id present. */
  lemma UpsertKeepsUniqueIds<T>(s: seq<T>, key: T -> string, x: T)
    requires UniqueIds(s, key)
    ensures UniqueIds(Upsert(s, key, x), key)
    ensures HasId(Upsert(s, key, x), key, key(x))
  {
    var i := FindIndex(s, key, key(x));
    var u := Upsert(s, key, x);
    if i >= 0 {
      assert key(u[i]) == key(x);
      forall a, b | 0 <= a < b < |u| ensures key(u[a]) != key(u[b]) {
        assert key(u[a]) == key(s[a]) && key(u[b]) == key(s[b]);
      }
    } else {
      assert key(u[|s|]) == key(x);
      forall a, b | 0 <= a < b < |u| ensures key(u[a]) != key(u[b]) {
        if b == |s| {
          assert u[a] == s[a];
        } else {
          assert u[a] == s[a] && u[b] == s[b];
        }
      }
    }
  }

  /** After an upsert the record itself is in the collection. */
  lemma UpsertContains<T>(s: seq<T>, key: T -> string, x: T)
    ensures x in Upsert(s, key, x)
  {
    var i := FindIndex(s, key, key(x));
    if i >= 0 {
      assert Upsert(s, key, x)[i] == x;
    } else {
      assert Upsert(s, key, x)[|s|] == x;
    }
  }

  /**
   * A search by a second field finds the upserted record first, when no
   * record with another id carries the searched value.
   */
  lemma UpsertFoundFirst<T>(s: seq<T>, key: T -> string, x: T, field: T -> string, v: string)
    requires field(x) == v
    requires forall y :: y in s && key(y) != key(x) ==> field(y) != v
    ensures var u := Upsert(s, key, x);
      var k := FindIndex(u, field, v);
      0 <= k < |u| && u[k] == x
  {
    var i := FindIndex(s, key, key(x));
    var u := Upsert(s, key, x);
    var at := if i >= 0 then i else |s|;
    assert u[at] == x;
    var k := FindIndex(u, field, v);
    assert k != -1 by { assert field(u[at]) == v; }
  }

  /** Upsert every record of `xs` in turn, first to last. */
  function UpsertAll<T>(s: seq<T>, key: T -> string, xs: seq<T>): seq<T>
    decreases |xs|
  {
    if xs == [] then s else Upsert(UpsertAll(s, key, xs[..|xs| - 1]), key, xs[|xs| - 1])
  }

  /** Upserting records whose ids are new and distinct appends them in order. */
  lemma {:induction false} UpsertAllFresh<T>(s: seq<T>, key: T -> string, xs: seq<T>)
    requires UniqueIds(xs, key)
    requires forall i :: 0 <= i < |xs| ==> !HasId(s, key, key(xs[i]))
    ensures UpsertAll(s, key, xs) == s + xs
    decreases |xs|
  {
    if xs != [] {
      var n := |xs| - 1;
      var init := xs[..n];
      var x := xs[n];
      assert UniqueIds(init, key) by {
        forall a, b | 0 <= a < b < |init| ensures key(init[a]) != key(init[b]) {
          assert init[a] == xs[a] && init[b] == xs[b];
        }
      }
      UpsertAllFresh(s, key, init);
      assert !HasId(s + init, key, key(x));
      UpsertAppendsNew(s + init, key, x);
      assert s + init + [x] == s + xs;
    }
  }

  /** Filtering one more element of a prefix adds that element exactly when it passes. */
  lemma FilterStep<T>(s: seq<T>, i: nat, p: T -> bool)
    requires i < |s|
    ensures Filter(s[..i + 1], p) == Filter(s[..i], p) + (if p(s[i]) then [s[i]] else [])
  {
    assert s[..i + 1] == s[..i] + [s[i]];
    FilterAppend(s[..i], [s[i]], p);
    assert [s[i]][1..] == [];
  }

  /** Upserting one more record is one more upsert. */
  lemma UpsertAllSnoc<T>(s: seq<T>, key: T -> string, xs: seq<T>, x: T)
    ensures UpsertAll(s, key, xs + [x]) == Upsert(UpsertAll(s, key, xs), key, x)
  {
    assert (xs + [x])[..|xs|] == xs;
  }

  /** `s.filter(x => key(x) !== id)`. */
  function RemoveId<T>(s: seq<T>, key: T -> string, id: string): seq<T> {
    Filter(s, (x: T) => key(x) != id)
  }

  /** Removal drops exactly the records with the id and keeps the others. */
  lemma RemoveIdSpec<T>(s: seq<T>, key: T -> string, id: string)
    ensures !HasId(RemoveId(s, key, id), key, id)
    ensures forall i :: 0 <= i < |s| && key(s[i]) != id ==> s[i] in RemoveId(s, key, id)
    ensures forall i :: 0 <= i < |RemoveId(s, key, id)| ==> RemoveId(s, key, id)[i] in s
  {
  }

  /** Removal keeps the order of the remaining records. */
  lemma RemoveIdKeepsOrder<T>(a: seq<T>, b: seq<T>, key: T -> string, id: string)
    ensures RemoveId(a + b, key, id) == RemoveId(a, key, id) + RemoveId(b, key, id)
  {
    FilterAppend(a, b, (x: T) => key(x) != id);
  }

  /** Removing an id nobody holds changes nothing. */
  lemma RemoveAbsentId<T>(s: seq<T>, key: T -> string, id: string)
    requires !HasId(s, key, id)
    ensures RemoveId(s, key, id) == s
  {
    FilterAll(s, (x: T) => key(x) != id);
  }

  /** `xs.slice(-n)`: the last `n` elements, or all of them. */
  function LastN<T>(xs: seq<T>, n: nat): (r: seq<T>)
    ensures |r| == if |xs| <= n then |xs| else n
    ensures r == xs[|xs| - |r|..]
  {
    if |xs| <= n then xs else xs[|xs| - n..]
  }

  /** Taking the last `n` twice, with more elements in between, is taking them once. */
  lemma LastNOfLastN<T>(a: seq<T>, b: seq<T>, n: nat)
    ensures LastN(LastN(a, n) + b, n) == LastN(a + b, n)
  {
    var l := LastN(a, n);
    assert l + b == (a + b)[|a| - |l|..];
  }

  /** The last `|b|` elements of `a + b` are `b`. */
  lemma LastNOfSuffix<T>(a: seq<T>, b: seq<T>)
    ensures LastN(a + b, |b|) == b
  {
    assert (a + b)[|a|..] == b;
  }

  /** A non-empty prefix is the shorter prefix and one more element. */
  lemma TakeSnoc<T>(s: seq<T>, k: nat)
    requires 0 < k <= |s|
    ensures s[..k] == s[..k - 1] + [s[k - 1]]
  {
  }

  /** Appending the head and then the tail is appending the whole. */
  lemma AppendHeadTail<T>(a: seq<T>, s: seq<T>)
    requires s != []
    ensures a + [s[0]] + s[1..] == a + s
  {
  }
}
