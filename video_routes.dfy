/**
 * `GET /api/videos/random`: count the documents, draw an offset below the
 * count, and answer with the document at that offset, or 404 when there is
 * none.  The handler only reads the collection.  The collection is seen as
 * the sequence of its documents in natural order.
 */
module VideoRoutes {
  import opened Wrappers
  import opened VideoModel
  import opened RandomDraw

  /** What the handler does with the request. */
  datatype Response =
    | Found(status: nat, video: VideoRecord)     // `res.json(video)`
    | NotFound(status: nat, message: string)     // `res.status(404).json({message})`
    | Forwarded(error: string)                   // `next(error)`

  const NoVideosMessage: string := "No videos found"

  /** `Video.findOne().skip(offset)`: the document at that offset in natural order, if any. */
  function FindOneSkip(docs: seq<VideoRecord>, offset: nat): Option<VideoRecord> {
    if offset < |docs| then Some(docs[offset]) else None
  }

  /**
   * `getRandomVideo`.  `draw` is the value of `Math.random()`; `readError`
   * is the error `countDocuments` or `findOne` throws, if one does.
   */
  function GetRandomVideo(docs: seq<VideoRecord>, draw: Draw, readError: Option<string>): (res: Response)
    requires ValidDraw(draw)
    ensures readError.Some? ==> res == Forwarded(readError.value)
    ensures readError.None? && docs == [] ==> res == NotFound(404, NoVideosMessage)
    ensures readError.None? && docs != [] ==>
      res.Found? && res.status == 200 && res.video in docs &&
      res.video == docs[ScaledIndex(draw, |docs|)]
  {
    if readError.Some? then Forwarded(readError.value)
    else
      var count := |docs|;
      var random := ScaledIndex(draw, count);
      match FindOneSkip(docs, random)
      case None => NotFound(404, NoVideosMessage)
      case Some(video) => Found(200, video)
  }

  /**
   * Every document can be the answer: for each one there is a draw that picks
   * it, whenever `Math.random()` can take at least as many values as there
   * are documents.
   */
  lemma EveryVideoCanBeChosen(docs: seq<VideoRecord>, d: nat, j: nat)
    requires j < |docs| <= d
    ensures exists k: nat :: k < d && GetRandomVideo(docs, Draw(k, d), None) == Found(200, docs[j])
  {
    EveryIndexReachable(|docs|, d, j);
    var k: nat :| k < d && ScaledIndex(Draw(k, d), |docs|) == j;
    assert GetRandomVideo(docs, Draw(k, d), None) == Found(200, docs[j]);
  }

  /**
   * `docs` lists the documents of the collection `table`, each once: every
   * entry is a stored document, no id is listed twice, and every stored id is
   * listed.
   */
  predicate Lists(docs: seq<VideoRecord>, table: map<string, VideoRecord>) {
    (forall i :: 0 <= i < |docs| ==> docs[i].videoId in table && table[docs[i].videoId] == docs[i]) &&
    (forall i, j :: 0 <= i < j < |docs| ==> docs[i].videoId != docs[j].videoId) &&
    (forall id :: id in table ==> exists i :: 0 <= i < |docs| && docs[i].videoId == id)
  }

  /** The answer is a document of the collection, filed under its own id. */
  lemma ChosenVideoIsStored(docs: seq<VideoRecord>, table: map<string, VideoRecord>, draw: Draw)
    requires ValidDraw(draw) && Lists(docs, table) && table != map[]
    ensures GetRandomVideo(docs, draw, None).Found?
    ensures var v := GetRandomVideo(docs, draw, None).video; v.videoId in table && table[v.videoId] == v
  {
    assert docs != [] by {
      assert table.Keys != {};
    }
  }

  /**
   * Every stored document can be the answer, whenever `Math.random()` can
   * take at least as many values as there are documents.
   */
  lemma EveryStoredVideoCanBeChosen(docs: seq<VideoRecord>, table: map<string, VideoRecord>, d: nat, id: string)
    requires Lists(docs, table) && |docs| <= d && id in table
    ensures exists k: nat :: k < d && GetRandomVideo(docs, Draw(k, d), None) == Found(200, table[id])
  {
    var i :| 0 <= i < |docs| && docs[i].videoId == id;
    EveryVideoCanBeChosen(docs, d, i);
  }
}
