/**
 * The handled-purchase ledger (app.js:22-53): ids are stored as
 * `{purchaseId: id}` documents in the "handled-purchases" collection and read
 * back by unwrapping every document in collection order.
 */
module HandledLedger {

  /** One document of the "handled-purchases" collection. */
  datatype HandledDoc = HandledDoc(purchaseId: string)

  /** The documents built for a batch of ids. */
  function Wrap(ids: seq<string>): (docs: seq<HandledDoc>)
    ensures |docs| == |ids|
  {
    if ids == [] then [] else Wrap(ids[..|ids| - 1]) + [HandledDoc(ids[|ids| - 1])]
  }

  /** The ids read back from a sequence of documents. */
  function Unwrap(docs: seq<HandledDoc>): (ids: seq<string>)
    ensures |ids| == |docs|
  {
    if docs == [] then [] else Unwrap(docs[..|docs| - 1]) + [docs[|docs| - 1].purchaseId]
  }

  /** Wrapping ids and unwrapping them again gives back the same ids. */
  lemma {:induction false} UnwrapWrap(ids: seq<string>)
    ensures Unwrap(Wrap(ids)) == ids
  {
    if ids != [] {
      var front := ids[..|ids| - 1];
      UnwrapWrap(front);
      var w := Wrap(ids);
      assert w[..|w| - 1] == Wrap(front);
    }
  }

  /** Every document holds only its id, so nothing is lost in the other direction. */
  lemma {:induction false} WrapUnwrap(docs: seq<HandledDoc>)
    ensures Wrap(Unwrap(docs)) == docs
  {
    if docs != [] {
      var front := docs[..|docs| - 1];
      var last := docs[|docs| - 1];
      WrapUnwrap(front);
      var u := Unwrap(docs);
      assert u == Unwrap(front) + [last.purchaseId];
      assert u[..|u| - 1] == Unwrap(front);
      assert Wrap(u) == Wrap(Unwrap(front)) + [HandledDoc(last.purchaseId)];
      assert docs == front + [last];
    }
  }

  /** Reading back keeps collection order across batches. */
  lemma {:induction false} UnwrapAppend(a: seq<HandledDoc>, b: seq<HandledDoc>)
    ensures Unwrap(a + b) == Unwrap(a) + Unwrap(b)
  {
    if b == [] {
      assert a + b == a;
    } else {
      var b' := b[..|b| - 1];
      assert (a + b)[..|a + b| - 1] == a + b';
      UnwrapAppend(a, b');
    }
  }

  /** One document per id, in the same order, with `purchaseId` the id. */
  lemma {:induction false} WrapPointwise(ids: seq<string>)
    ensures |Wrap(ids)| == |ids|
    ensures forall i :: 0 <= i < |ids| ==> Wrap(ids)[i] == HandledDoc(ids[i])
  {
    if ids != [] {
      WrapPointwise(ids[..|ids| - 1]);
    }
  }

  /** The Mongo collection, held in memory: `insertMany` appends, and
      `find({})` yields every document, here taken in insertion order (an
      unsorted Mongo `find` returns natural order, which is not promised). */
  class HandledPurchaseCollection {
    var documents: seq<HandledDoc>

    constructor ()
      ensures documents == []
    {
      documents := [];
    }

    method InsertMany(docs: seq<HandledDoc>)
      modifies this
      ensures documents == old(documents) + docs
    {
      documents := documents + docs;
    }

    method Find() returns (cursor: seq<HandledDoc>)
      ensures cursor == documents
    {
      cursor := documents;
    }
  }

  /** addHandledPurchase (app.js:22-37): build one document per id, then insert them. */
  method AddHandledPurchase(collection: HandledPurchaseCollection, ids: seq<string>)
    modifies collection
    ensures collection.documents == old(collection.documents) + Wrap(ids)
    ensures Unwrap(collection.documents) == Unwrap(old(collection.documents)) + ids
  {
    var docs := [];
    var i := 0;
    while i < |ids|
      invariant 0 <= i <= |ids|
      invariant docs == Wrap(ids[..i])
    {
      docs := docs + [HandledDoc(ids[i])];
      assert ids[..i + 1][..i] == ids[..i];
      i := i + 1;
    }
    assert ids[..i] == ids;
    collection.InsertMany(docs);
    UnwrapAppend(old(collection.documents), docs);
    UnwrapWrap(ids);
  }

  /** getHandledPurchases (app.js:38-53): the `purchaseId` of every document. */
  method GetHandledPurchases(collection: HandledPurchaseCollection) returns (handledPurchases: seq<string>)
    ensures handledPurchases == Unwrap(collection.documents)
    ensures |handledPurchases| == |collection.documents|
  {
    var cursor := collection.Find();
    handledPurchases := [];
    var i := 0;
    while i < |cursor|
      invariant 0 <= i <= |cursor|
      invariant handledPurchases == Unwrap(cursor[..i])
    {
      handledPurchases := handledPurchases + [cursor[i].purchaseId];
      assert cursor[..i + 1][..i] == cursor[..i];
      i := i + 1;
    }
    assert cursor[..i] == cursor;
    WrapUnwrap(cursor);
    WrapPointwise(handledPurchases);
  }

  /** Inserting a batch into an empty collection and reading it back returns
      exactly that batch, in insertion order. */
  method AddThenGet(ids: seq<string>) returns (handledPurchases: seq<string>)
    ensures handledPurchases == ids
  {
    var collection := new HandledPurchaseCollection();
    AddHandledPurchase(collection, ids);
    handledPurchases := GetHandledPurchases(collection);
  }
}
