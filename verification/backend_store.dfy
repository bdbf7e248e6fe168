/** The backend's request handlers over its two collections. The overlay
    collection is a map from ObjectId to stored document; the settings collection
    holds at most one document. Each handler returns the status and JSON body it
    would send. Clock readings and the ids the database generates are inputs. */
module Backend {
  import opened Common
  import opened Records
  import ObjectIds

  const NotFoundText: string := "Overlay not found"

  /** A stored overlay document, without its `_id` (the map key). */
  datatype OverlayDoc = OverlayDoc(
    kind: string,
    content: string,
    position: Position,
    size: Size,
    createdAt: Timestamp,
    updatedAt: Timestamp)

  /** The keys of a request body the overlay handlers read; `None` is an absent key. */
  datatype OverlayBody = OverlayBody(
    kind: Option<string>,
    content: Option<string>,
    position: Option<Position>,
    size: Option<Size>)

  datatype Json =
    | OverlayJson(overlay: Overlay)
    | ErrorJson(error: string)
    | MessageJson(message: string)
    | SettingsJson(id: Option<string>, rtspUrl: string, updatedAt: Option<Timestamp>)
      /** What Flask sends for an exception the handler does not catch. */
    | ServerErrorPage

  datatype Response = Response(status: int, body: Json)

  /** `str(e)` for the `InvalidId` raised by `ObjectId(text)`. */
  function InvalidIdMessage(text: string): (r: string)
    ensures |r| > |text| + 2 && r[0] == '\'' && r[1..|text| + 1] == text && r[|text| + 1] == '\''
  {
    var quoted := "'" + text + "'";
    assert quoted[1..|text| + 1] == text;
    quoted + " is not a valid ObjectId, it must be a 12-byte input or a 24-character hex string"
  }

  /** `serialize_overlay`: the document with `_id` turned into its string form. */
  function Serialize(id: ObjectIds.ObjectId, d: OverlayDoc): (r: Overlay)
    ensures r.id == ObjectIds.IdText(id) && ObjectIds.ParseId(r.id) == Some(id)
    ensures r.kind == d.kind && r.content == d.content && r.position == d.position && r.size == d.size
    ensures r.createdAt == d.createdAt && r.updatedAt == d.updatedAt
  {
    ObjectIds.ParseIdText(id);
    Overlay(ObjectIds.IdText(id), d.kind, d.content, d.position, d.size, d.createdAt, d.updatedAt)
  }

  /** The document `create_overlay` inserts: each key taken from the body when
      present, else its default (type 'text', empty content, position (0, 0),
      size 200 x 50). */
  function NewDoc(body: OverlayBody, created: Timestamp, updated: Timestamp): (d: OverlayDoc)
    ensures d.kind == if body.kind.Some? then body.kind.value else "text"
    ensures d.content == if body.content.Some? then body.content.value else ""
    ensures d.position == if body.position.Some? then body.position.value else Position(0, 0)
    ensures d.size == if body.size.Some? then body.size.value else Size(200, 50)
    ensures d.createdAt == created && d.updatedAt == updated
  {
    OverlayDoc(
      body.kind.GetOr("text"),
      body.content.GetOr(""),
      body.position.GetOr(Position(0, 0)),
      body.size.GetOr(Size(200, 50)),
      created,
      updated)
  }

  /** The stored document after `update_overlay`'s `$set`: the keys present in the
      body, plus `updated_at`; `created_at` and every absent key keep their value. */
  function Patched(d: OverlayDoc, body: OverlayBody, now: Timestamp): (r: OverlayDoc)
    ensures r.kind == if body.kind.Some? then body.kind.value else d.kind
    ensures r.content == if body.content.Some? then body.content.value else d.content
    ensures r.position == if body.position.Some? then body.position.value else d.position
    ensures r.size == if body.size.Some? then body.size.value else d.size
    ensures r.createdAt == d.createdAt && r.updatedAt == now
  {
    OverlayDoc(
      body.kind.GetOr(d.kind),
      body.content.GetOr(d.content),
      body.position.GetOr(d.position),
      body.size.GetOr(d.size),
      d.createdAt,
      now)
  }

  /** Re-sending the same update changes nothing further. */
  lemma PatchedIdempotent(d: OverlayDoc, body: OverlayBody, now: Timestamp)
    ensures Patched(Patched(d, body, now), body, now) == Patched(d, body, now)
  {
  }

  /** The keys of a frontend overlay record, as the handlers read its JSON body:
      all four are present. */
  function BodyOf(o: Overlay): (b: OverlayBody)
    ensures b.kind == Some(o.kind) && b.content == Some(o.content)
    ensures b.position == Some(o.position) && b.size == Some(o.size)
  {
    OverlayBody(Some(o.kind), Some(o.content), Some(o.position), Some(o.size))
  }

  /** A frontend that PUTs back the record it was sent, with one field replaced,
      changes that field and `updated_at` in the store, and nothing else. */
  lemma ResendChangesOnly(id: ObjectIds.ObjectId, d: OverlayDoc, o: Overlay, now: Timestamp)
    requires o.kind == Serialize(id, d).kind && o.content == Serialize(id, d).content
    ensures o.position == d.position && o.size == d.size ==>
      Patched(d, BodyOf(o), now) == d.(updatedAt := now)
    ensures Patched(d, BodyOf(o), now) == d.(position := o.position, size := o.size, updatedAt := now)
  {
  }

  class OverlayCollection {
    var docs: map<ObjectIds.ObjectId, OverlayDoc>

    constructor()
      ensures docs == map[]
    {
      docs := map[];
    }

    /** `POST /api/overlays`. `newId` is the id the driver generates; inserting an id
        that is already taken raises `DuplicateKeyError`, which the handler does not
        catch. */
    method CreateOverlay(body: OverlayBody, newId: ObjectIds.ObjectId, created: Timestamp, updated: Timestamp)
      returns (resp: Response)
      modifies this
      ensures newId in old(docs) ==> resp == Response(500, ServerErrorPage) && docs == old(docs)
      ensures newId !in old(docs) ==>
        && docs == old(docs)[newId := NewDoc(body, created, updated)]
        && resp == Response(201, OverlayJson(Serialize(newId, NewDoc(body, created, updated))))
    {
      if newId in docs {
        resp := Response(500, ServerErrorPage);
      } else {
        var overlay := NewDoc(body, created, updated);
        docs := docs[newId := overlay];
        resp := Response(201, OverlayJson(Serialize(newId, overlay)));
      }
    }

    /** `GET /api/overlays/<id>`: 400 for text that is not an ObjectId, 404 for an id
        with no document, else the serialized document. */
    method GetOverlay(idText: string) returns (resp: Response)
      ensures ObjectIds.ParseId(idText).None? ==> resp == Response(400, ErrorJson(InvalidIdMessage(idText)))
      ensures ObjectIds.ParseId(idText).Some? && ObjectIds.ParseId(idText).value !in docs ==>
        resp == Response(404, ErrorJson(NotFoundText))
      ensures ObjectIds.ParseId(idText).Some? && ObjectIds.ParseId(idText).value in docs ==>
        resp == Response(200, OverlayJson(Serialize(ObjectIds.ParseId(idText).value, docs[ObjectIds.ParseId(idText).value])))
    {
      var parsed := ObjectIds.ParseId(idText);
      if parsed.None? {
        resp := Response(400, ErrorJson(InvalidIdMessage(idText)));
      } else if parsed.value in docs {
        resp := Response(200, OverlayJson(Serialize(parsed.value, docs[parsed.value])));
      } else {
        resp := Response(404, ErrorJson(NotFoundText));
      }
    }

    /** `PUT /api/overlays/<id>`: builds the `$set` document key by key from the
        body, applies it to the matching document, and returns that document. */
    method UpdateOverlay(idText: string, body: OverlayBody, now: Timestamp) returns (resp: Response)
      modifies this
      ensures ObjectIds.ParseId(idText).None? ==>
        resp == Response(400, ErrorJson(InvalidIdMessage(idText))) && docs == old(docs)
      ensures ObjectIds.ParseId(idText).Some? && ObjectIds.ParseId(idText).value !in old(docs) ==>
        resp == Response(404, ErrorJson(NotFoundText)) && docs == old(docs)
      ensures ObjectIds.ParseId(idText).Some? && ObjectIds.ParseId(idText).value in old(docs) ==>
        var id := ObjectIds.ParseId(idText).value;
        && docs == old(docs)[id := Patched(old(docs)[id], body, now)]
        && resp == Response(200, OverlayJson(Serialize(id, docs[id])))
    {
      var parsed := ObjectIds.ParseId(idText);
      if parsed.None? {
        resp := Response(400, ErrorJson(InvalidIdMessage(idText)));
        return;
      }
      var id := parsed.value;
      if id !in docs {
        resp := Response(404, ErrorJson(NotFoundText));
        return;
      }
      var d := docs[id].(updatedAt := now);
      if body.kind.Some? {
        d := d.(kind := body.kind.value);
      }
      if body.content.Some? {
        d := d.(content := body.content.value);
      }
      if body.position.Some? {
        d := d.(position := body.position.value);
      }
      if body.size.Some? {
        d := d.(size := body.size.value);
      }
      docs := docs[id := d];
      resp := Response(200, OverlayJson(Serialize(id, d)));
    }

    /** `DELETE /api/overlays/<id>`: removes exactly the matching document; 404 when
        none matched, 400 for text that is not an ObjectId. */
    method DeleteOverlay(idText: string) returns (resp: Response)
      modifies this
      ensures ObjectIds.ParseId(idText).None? ==>
        resp == Response(400, ErrorJson(InvalidIdMessage(idText))) && docs == old(docs)
      ensures ObjectIds.ParseId(idText).Some? && ObjectIds.ParseId(idText).value !in old(docs) ==>
        resp == Response(404, ErrorJson(NotFoundText)) && docs == old(docs)
      ensures ObjectIds.ParseId(idText).Some? && ObjectIds.ParseId(idText).value in old(docs) ==>
        && docs == old(docs) - {ObjectIds.ParseId(idText).value}
        && resp == Response(200, MessageJson("Overlay deleted successfully"))
    {
      var parsed := ObjectIds.ParseId(idText);
      if parsed.None? {
        resp := Response(400, ErrorJson(InvalidIdMessage(idText)));
      } else if parsed.value in docs {
        docs := docs - {parsed.value};
        resp := Response(200, MessageJson("Overlay deleted successfully"));
      } else {
        resp := Response(404, ErrorJson(NotFoundText));
      }
    }
  }

  /** The single settings document. */
  datatype SettingsDoc = SettingsDoc(id: ObjectIds.ObjectId, rtspUrl: string, updatedAt: Timestamp)

  class SettingsCollection {
    var doc: Option<SettingsDoc>

    constructor()
      ensures doc.None?
    {
      doc := None;
    }

    /** `GET /api/settings`: the stored document with a string `_id`, or
        `{'rtsp_url': ''}` when there is none. */
    method GetSettings() returns (resp: Response)
      ensures resp.status == 200 && resp.body.SettingsJson?
      ensures doc.None? ==> resp.body == SettingsJson(None, "", None)
      ensures doc.Some? ==>
        && resp.body.rtspUrl == doc.value.rtspUrl
        && resp.body.updatedAt == Some(doc.value.updatedAt)
        && resp.body.id == Some(ObjectIds.IdText(doc.value.id))
        && ObjectIds.ParseId(resp.body.id.value) == Some(doc.value.id)
    {
      if doc.None? {
        resp := Response(200, SettingsJson(None, "", None));
      } else {
        ObjectIds.ParseIdText(doc.value.id);
        resp := Response(200, SettingsJson(Some(ObjectIds.IdText(doc.value.id)), doc.value.rtspUrl, Some(doc.value.updatedAt)));
      }
    }

    /** `POST`/`PUT /api/settings`: upserts the single document with `rtsp_url` set
        to the posted value, or '' when the key is absent. `newId` is the id an
        insert would receive. */
    method UpdateSettings(rtspUrl: Option<string>, newId: ObjectIds.ObjectId, now: Timestamp) returns (resp: Response)
      modifies this
      ensures doc.Some? && doc.value.rtspUrl == rtspUrl.GetOr("") && doc.value.updatedAt == now
      ensures doc.value.id == if old(doc).Some? then old(doc).value.id else newId
      ensures resp == Response(200, MessageJson("Settings updated successfully"))
    {
      var id := if doc.Some? then doc.value.id else newId;
      doc := Some(SettingsDoc(id, rtspUrl.GetOr(""), now));
      resp := Response(200, MessageJson("Settings updated successfully"));
    }
  }
}
