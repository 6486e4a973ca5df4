/**
 * The `Video` collection: one document per video, keyed by `videoId`.
 * The collection is what the refresh service fills and the random-video
 * route reads.
 */
module VideoModel {

  /**
   * A stored document, with the fields the schema declares: `videoId`
   * (required and unique), `title`, `description`, `category`, and
   * `fetchedAt`, which the schema fills with the insertion time.
   * There is no `publishedAt` field: the schema does not declare one.
   */
  datatype VideoRecord = VideoRecord(
    videoId: string,
    title: string,
    description: string,
    category: string,
    fetchedAt: int)

  /**
   * The update document the refresh service sends with an upsert.  It carries
   * `publishedAt`, which the schema does not declare, so a strict schema
   * leaves it out of the stored document.
   */
  datatype VideoUpdate = VideoUpdate(
    videoId: string,
    title: string,
    description: string,
    category: string,
    publishedAt: string)

  /** Every document is filed under its own `videoId`, so ids are unique. */
  predicate KeyedById(docs: map<string, VideoRecord>) {
    forall id :: id in docs ==> docs[id].videoId == id
  }

  /**
   * `findOneAndUpdate({videoId: id}, update, {upsert: true})`: the document
   * with that id takes the update's declared fields; when there is none, a
   * new document is inserted, stamped `fetchedAt = now`.  An existing
   * document keeps its `fetchedAt`, because the default applies on insert only.
   */
  function Upserted(docs: map<string, VideoRecord>, id: string, update: VideoUpdate, now: int)
    : (docs': map<string, VideoRecord>)
    requires update.videoId == id
    ensures docs'.Keys == docs.Keys + {id}
    ensures docs'[id].videoId == id && docs'[id].title == update.title
    ensures docs'[id].description == update.description && docs'[id].category == update.category
    ensures docs'[id].fetchedAt == if id in docs then docs[id].fetchedAt else now
    ensures forall other :: other in docs && other != id ==> docs'[other] == docs[other]
    ensures KeyedById(docs) ==> KeyedById(docs')
  {
    var stamp := if id in docs then docs[id].fetchedAt else now;
    docs[id := VideoRecord(id, update.title, update.description, update.category, stamp)]
  }

  /** The `Video` model as a mutable collection. */
  class VideoStore {
    var docs: map<string, VideoRecord>

    ghost predicate Valid()
      reads this
    {
      KeyedById(docs)
    }

    constructor ()
      ensures Valid() && docs == map[]
    {
      docs := map[];
    }

    /** `Video.deleteMany({})`. */
    method DeleteMany()
      modifies this
      ensures Valid() && docs == map[]
    {
      docs := map[];
    }

    /** `Video.findOneAndUpdate({videoId: id}, update, {upsert: true})`. */
    method FindOneAndUpsert(id: string, update: VideoUpdate, now: int)
      requires Valid() && update.videoId == id
      modifies this
      ensures Valid()
      ensures docs == Upserted(old(docs), id, update, now)
    {
      docs := Upserted(docs, id, update, now);
    }
  }
}
