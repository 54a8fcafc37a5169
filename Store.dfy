/**
 * The persistent MongoDB collection `cpc2.iot` as an append-only sequence of documents:
 * `insert_one` adds one document at the end and changes nothing else.
 */
module Store {

  class Collection<D> {
    var docs: seq<D>

    /** A handle on the stored collection, holding what earlier runs inserted. */
    constructor (stored: seq<D>)
      ensures docs == stored
    {
      docs := stored;
    }

    /** `collection.insert_one(doc)`. */
    method InsertOne(doc: D)
      modifies this
      ensures docs == old(docs) + [doc]
    {
      docs := docs + [doc];
    }
  }
}
