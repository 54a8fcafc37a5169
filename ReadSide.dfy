/**
 * The read side of dashboard.py: the loop that walks the fetched documents
 * and splits them into a temperature series and a smoke series.
 *
 * A document is a map from keys to values of an opaque type `D`. The
 * conversion of a stored timestamp to Malaysian local time is the parameter
 * `normalize`; `None` stands for the exception `fromisoformat` raises on a
 * value it cannot read. A document without a "timestamp" key raises
 * `KeyError`. Neither exception is caught, so either ends the walk.
 */
module ReadSide {
  import opened Wrappers
  import opened Messages

  type Doc<D> = map<string, D>

  /** One entry `{"timestamp": ..., <key>: ...}` of a series. */
  datatype Point<T, D> = Point(timestamp: T, value: D)

  /** The two exceptions a document can raise in the loop. */
  datatype ReadError = KeyError | TimestampError

  /** The loop gets through this document without raising. */
  predicate Readable<D, T>(doc: Doc<D>, normalize: D -> Option<T>)
  {
    KeyTimestamp in doc && normalize(doc[KeyTimestamp]).Some?
  }

  predicate AllReadable<D, T>(docs: seq<Doc<D>>, normalize: D -> Option<T>)
  {
    forall i :: 0 <= i < |docs| ==> Readable(docs[i], normalize)
  }

  /** The exception an unreadable document raises. */
  function Failing<D, T>(doc: Doc<D>, normalize: D -> Option<T>): ReadError
    requires !Readable(doc, normalize)
  {
    if KeyTimestamp !in doc then KeyError else TimestampError
  }

  /** The normalised timestamp of a readable document. */
  function LocalTime<D, T>(doc: Doc<D>, normalize: D -> Option<T>): T
    requires Readable(doc, normalize)
  {
    normalize(doc[KeyTimestamp]).value
  }

  /** What one document adds to the series of `key`: one entry if it has the key, none otherwise. */
  function Contribution<D, T>(doc: Doc<D>, key: string, normalize: D -> Option<T>): seq<Point<T, D>>
    requires Readable(doc, normalize)
  {
    if key in doc then [Point(LocalTime(doc, normalize), doc[key])] else []
  }

  /** The series of `key` over `docs`: every document's contribution, in cursor order. */
  function Series<D, T>(docs: seq<Doc<D>>, key: string, normalize: D -> Option<T>): seq<Point<T, D>>
    requires AllReadable(docs, normalize)
  {
    if docs == [] then []
    else Contribution(docs[0], key, normalize) + Series(docs[1..], key, normalize)
  }

  /** The series of a concatenation is the concatenation of the series. */
  lemma {:induction false} SeriesAppend<D, T>(a: seq<Doc<D>>, b: seq<Doc<D>>, key: string, normalize: D -> Option<T>)
    requires AllReadable(a, normalize) && AllReadable(b, normalize)
    ensures AllReadable(a + b, normalize)
    ensures Series(a + b, key, normalize) == Series(a, key, normalize) + Series(b, key, normalize)
    decreases |a|
  {
    assert forall i :: 0 <= i < |a + b| ==> (a + b)[i] == if i < |a| then a[i] else b[i - |a|];
    if a == [] {
      assert a + b == b;
    } else {
      assert (a + b)[1..] == a[1..] + b;
      SeriesAppend(a[1..], b, key, normalize);
    }
  }

  /** A document without the key adds nothing to that series wherever it sits. */
  lemma DocumentWithoutKey<D, T>(a: seq<Doc<D>>, doc: Doc<D>, b: seq<Doc<D>>, key: string, normalize: D -> Option<T>)
    requires AllReadable(a, normalize) && Readable(doc, normalize) && AllReadable(b, normalize)
    requires key !in doc
    ensures AllReadable(a + [doc] + b, normalize) && AllReadable(a + b, normalize)
    ensures Series(a + [doc] + b, key, normalize) == Series(a + b, key, normalize)
  {
    assert Series([doc], key, normalize) == [] by {
      assert [doc][1..] == [];
    }
    SeriesAppend(a, [doc], key, normalize);
    SeriesAppend(a + [doc], b, key, normalize);
    SeriesAppend(a, b, key, normalize);
  }

  /**
   * A document with the key contributes exactly one entry, and it sits
   * after the entries of all earlier documents: its position is the length
   * of the series over the documents before it.
   */
  lemma EntryPosition<D, T>(docs: seq<Doc<D>>, i: nat, key: string, normalize: D -> Option<T>)
    requires AllReadable(docs, normalize) && i < |docs| && key in docs[i]
    ensures AllReadable(docs[..i], normalize)
    ensures |Series(docs[..i], key, normalize)| < |Series(docs, key, normalize)|
    ensures Series(docs, key, normalize)[|Series(docs[..i], key, normalize)|]
            == Point(LocalTime(docs[i], normalize), docs[i][key])
  {
    var a, b := docs[..i], docs[i + 1..];
    assert AllReadable(a, normalize) by {
      forall j | 0 <= j < |a| ensures Readable(a[j], normalize) { assert a[j] == docs[j]; }
    }
    assert AllReadable(b, normalize) by {
      forall j | 0 <= j < |b| ensures Readable(b[j], normalize) { assert b[j] == docs[i + 1 + j]; }
    }
    assert AllReadable([docs[i]], normalize);
    assert docs == a + [docs[i]] + b;
    assert Series([docs[i]], key, normalize) == [Point(LocalTime(docs[i], normalize), docs[i][key])] by {
      assert [docs[i]][1..] == [];
    }
    SeriesAppend(a, [docs[i]], key, normalize);
    SeriesAppend(a + [docs[i]], b, key, normalize);
  }

  /** Taking in one more document that has the key lengthens the series by exactly one. */
  lemma EntryAddsOne<D, T>(docs: seq<Doc<D>>, doc: Doc<D>, key: string, normalize: D -> Option<T>)
    requires AllReadable(docs, normalize) && Readable(doc, normalize) && key in doc
    ensures AllReadable(docs + [doc], normalize)
    ensures |Series(docs + [doc], key, normalize)| == |Series(docs, key, normalize)| + 1
  {
    assert [doc][1..] == [];
    SeriesAppend(docs, [doc], key, normalize);
  }

  /**
   * The loop of dashboard.py over the cursor: stamps each document with its
   * local time and appends it to the temperature series if it has a
   * temperature, and to the smoke series if it has a smoke reading. The
   * first unreadable document ends the walk with its exception.
   */
  method Partition<D, T>(cursor: seq<Doc<D>>, normalize: D -> Option<T>)
    returns (r: Result<(seq<Point<T, D>>, seq<Point<T, D>>), ReadError>)
    ensures r.Success? <==> AllReadable(cursor, normalize)
    ensures r.Success? ==>
              r.value == (Series(cursor, KeyTemperature, normalize), Series(cursor, KeySmoke, normalize))
    ensures r.Failure? ==>
              exists i :: 0 <= i < |cursor| && AllReadable(cursor[..i], normalize)
                          && !Readable(cursor[i], normalize) && r.error == Failing(cursor[i], normalize)
  {
    var temperatureData: seq<Point<T, D>> := [];
    var smokeData: seq<Point<T, D>> := [];
    var i := 0;
    while i < |cursor|
      invariant 0 <= i <= |cursor|
      invariant AllReadable(cursor[..i], normalize)
      invariant temperatureData == Series(cursor[..i], KeyTemperature, normalize)
      invariant smokeData == Series(cursor[..i], KeySmoke, normalize)
    {
      var doc := cursor[i];
      if KeyTimestamp !in doc {
        return Failure(KeyError);
      }
      var local := normalize(doc[KeyTimestamp]);
      if local.None? {
        return Failure(TimestampError);
      }
      assert cursor[..i + 1] == cursor[..i] + [doc];
      assert Series([doc], KeyTemperature, normalize) == Contribution(doc, KeyTemperature, normalize) by {
        assert [doc][1..] == [];
      }
      assert Series([doc], KeySmoke, normalize) == Contribution(doc, KeySmoke, normalize) by {
        assert [doc][1..] == [];
      }
      SeriesAppend(cursor[..i], [doc], KeyTemperature, normalize);
      SeriesAppend(cursor[..i], [doc], KeySmoke, normalize);
      if KeyTemperature in doc {
        temperatureData := temperatureData + [Point(local.value, doc[KeyTemperature])];
      }
      if KeySmoke in doc {
        smokeData := smokeData + [Point(local.value, doc[KeySmoke])];
      }
      i := i + 1;
    }
    assert cursor[..i] == cursor;
    r := Success((temperatureData, smokeData));
  }

  /**
   * A record the message callback inserted reads back into exactly the
   * series of its topic, with the reading it was given, once its timestamp
   * normalises.
   */
  lemma InsertedRecordReadsBack<T, N, Z>(topic: string, message: string, now: T,
                                         toFloat: string -> Option<N>, normalize: Value<T, N> -> Option<Z>)
    requires Handle(topic, message, now, toFloat).Success?
    requires normalize(Time(now)).Some?
    ensures var doc := Handle(topic, message, now, toFloat).value;
            && AllReadable([doc], normalize)
            && Series([doc], KeyTemperature, normalize)
               == (if topic == TopicTemperature
                   then [Point(normalize(Time(now)).value, Number(ParseValue(message, toFloat).value))]
                   else [])
            && Series([doc], KeySmoke, normalize)
               == (if topic == TopicSmoke
                   then [Point(normalize(Time(now)).value, Number(ParseValue(message, toFloat).value))]
                   else [])
  {
  }
}
