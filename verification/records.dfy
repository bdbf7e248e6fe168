/** The overlay record as it travels between the backend and the frontend (the
    JSON object `serialize_overlay` produces and the frontend keeps in its list). */
module Records {

  /** An opaque clock reading (`datetime.utcnow()`). */
  type Timestamp = nat

  datatype Position = Position(x: int, y: int)

  datatype Size = Size(width: int, height: int)

  /** `{_id, type, content, position, size, created_at, updated_at}`; `kind` is the
      `type` key, which the backend stores as given ('text' or 'image' in practice). */
  datatype Overlay = Overlay(
    id: string,
    kind: string,
    content: string,
    position: Position,
    size: Size,
    createdAt: Timestamp,
    updatedAt: Timestamp)
}
