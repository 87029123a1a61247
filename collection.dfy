/** A database collection: documents keyed by identifier, plus the natural
    order in which `find` returns them (the order of insertion). */
module Collections {
  import opened Common

  datatype Collection<T> = Collection(ids: seq<Id>, docs: map<Id, T>)

  /** Every key is listed exactly once in the natural order. */
  ghost predicate Valid<T>(c: Collection<T>) {
    && (forall i, j :: 0 <= i < j < |c.ids| ==> c.ids[i] != c.ids[j])
    && (forall id :: id in c.docs <==> id in c.ids)
  }

  function Empty<T>(): (c: Collection<T>)
    ensures Valid(c) && c.docs == map[]
  {
    Collection([], map[])
  }

  /** `Model.find({})`: every document, in natural order. */
  function Values<T>(c: Collection<T>): (r: seq<T>)
    requires Valid(c)
    ensures |r| == |c.ids|
    ensures forall i :: 0 <= i < |r| ==> r[i] == c.docs[c.ids[i]]
  {
    seq(|c.ids|, i requires 0 <= i < |c.ids| => c.docs[c.ids[i]])
  }

  /** Every stored document is among the values, and nothing else is. */
  lemma ValuesAreDocs<T>(c: Collection<T>)
    requires Valid(c)
    ensures forall id :: id in c.docs ==> c.docs[id] in Values(c)
    ensures forall x :: x in Values(c) ==> exists id :: id in c.docs && c.docs[id] == x
  {
    var vs := Values(c);
    forall id | id in c.docs ensures c.docs[id] in vs {
      var k :| 0 <= k < |c.ids| && c.ids[k] == id;
      assert vs[k] == c.docs[id];
    }
    forall x | x in vs ensures exists id :: id in c.docs && c.docs[id] == x {
      var k :| 0 <= k < |vs| && vs[k] == x;
      assert c.ids[k] in c.docs;
    }
  }

  /** `save()` of a new document: it goes last in natural order. */
  function Insert<T>(c: Collection<T>, id: Id, doc: T): (r: Collection<T>)
    requires Valid(c) && id !in c.docs
    ensures Valid(r)
    ensures r.docs == c.docs[id := doc]
    ensures Values(r) == Values(c) + [doc]
  {
    var r := Collection(c.ids + [id], c.docs[id := doc]);
    assert forall k :: 0 <= k < |c.ids| ==> r.ids[k] == c.ids[k];
    r
  }

  /** `save()` of an existing document: its place in natural order is kept. */
  function Put<T>(c: Collection<T>, id: Id, doc: T): (r: Collection<T>)
    requires Valid(c) && id in c.docs
    ensures Valid(r)
    ensures r.ids == c.ids && r.docs == c.docs[id := doc]
  {
    Collection(c.ids, c.docs[id := doc])
  }

  function WithoutId(ids: seq<Id>, id: Id): (r: seq<Id>)
    ensures forall x :: x in r <==> x in ids && x != id
    ensures (forall i, j :: 0 <= i < j < |ids| ==> ids[i] != ids[j]) ==>
              forall i, j :: 0 <= i < j < |r| ==> r[i] != r[j]
  {
    if ids == [] then []
    else if ids[0] == id then WithoutId(ids[1..], id)
    else
      var tail := WithoutId(ids[1..], id);
      assert ids[0] !in ids[1..] ==> ids[0] !in tail;
      assert (forall i, j :: 0 <= i < j < |ids| ==> ids[i] != ids[j]) ==> ids[0] !in ids[1..] by {
        if forall i, j :: 0 <= i < j < |ids| ==> ids[i] != ids[j] {
          forall k | 0 <= k < |ids[1..]| ensures ids[1..][k] != ids[0] {
            assert ids[1..][k] == ids[k + 1];
          }
        }
      }
      [ids[0]] + tail
  }

  /** Dropping an id that is not there changes nothing. */
  lemma {:induction false} WithoutIdAbsent(ids: seq<Id>, id: Id)
    requires id !in ids
    ensures WithoutId(ids, id) == ids
    decreases |ids|
  {
    if ids != [] {
      assert ids[0] != id;
      WithoutIdAbsent(ids[1..], id);
      assert [ids[0]] + ids[1..] == ids;
    }
  }

  /** Dropping an id from two runs of ids drops it from each. */
  lemma {:induction false} WithoutIdDistributes(a: seq<Id>, b: seq<Id>, id: Id)
    ensures WithoutId(a + b, id) == WithoutId(a, id) + WithoutId(b, id)
    decreases |a|
  {
    if a == [] {
      assert a + b == b;
    } else {
      assert (a + b)[0] == a[0];
      assert (a + b)[1..] == a[1..] + b;
      WithoutIdDistributes(a[1..], b, id);
    }
  }

  /** An id that occurs once is dropped from its place; the ids before
      and after it stay, in the same order. */
  lemma WithoutIdAt(before: seq<Id>, id: Id, after: seq<Id>)
    requires id !in before && id !in after
    ensures WithoutId(before + [id] + after, id) == before + after
  {
    calc {
      WithoutId(before + [id] + after, id);
      { WithoutIdDistributes(before + [id], after, id); }
      WithoutId(before + [id], id) + WithoutId(after, id);
      { WithoutIdAbsent(after, id); }
      WithoutId(before + [id], id) + after;
      { WithoutIdDistributes(before, [id], id); }
      WithoutId(before, id) + WithoutId([id], id) + after;
      { WithoutIdAbsent(before, id); DropOnly(id); }
      before + [] + after;
    }
  }

  /** The one-id run loses its only id. */
  lemma DropOnly(id: Id)
    ensures WithoutId([id], id) == []
  {
    assert [id][1..] == [];
  }

  /** `deleteOne()` takes the document out of its place in the natural
      order: the documents before and after it stay, in the same order. */
  lemma RemoveKeepsOrder<T>(c: Collection<T>, id: Id, before: seq<Id>, after: seq<Id>)
    requires Valid(c) && c.ids == before + [id] + after
    ensures Remove(c, id).ids == before + after
  {
    var n := |before|;
    assert c.ids[n] == id;
    assert id !in before by {
      forall k | 0 <= k < n ensures before[k] != id {
        assert c.ids[k] == before[k];
      }
    }
    assert id !in after by {
      forall k | 0 <= k < |after| ensures after[k] != id {
        assert c.ids[n + 1 + k] == after[k];
      }
    }
    WithoutIdAt(before, id, after);
  }

  /** `deleteOne()`: the document leaves the map and the natural order. */
  function Remove<T>(c: Collection<T>, id: Id): (r: Collection<T>)
    requires Valid(c)
    ensures Valid(r)
    ensures r.docs == c.docs - {id}
  {
    Collection(WithoutId(c.ids, id), c.docs - {id})
  }
}
