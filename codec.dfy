/**
 * The backup blob format: a JSON document compressed with zlib (RFC 1950
 * wrapping RFC 1951 DEFLATE) and written as base64 (RFC 4648, section 4).
 * The compression and text encodings are not modelled; a blob is either the
 * document it carries or text that inflating or parsing rejects.
 */
module Codec {
  import opened Wrappers

  /** A parsed JSON value (`JSON.parse` keeps the last of duplicate object keys). */
  datatype Json =
    | JNull
    | JBool(b: bool)
    | JNumber(n: real)
    | JString(s: string)
    | JArray(items: seq<Json>)
    | JObject(fields: map<string, Json>)

  datatype Blob = Deflated(doc: Json) | Undecodable(text: string)

  /** `JSON.stringify`, `pako.deflate`, base64. */
  function Compress(doc: Json): Blob {
    Deflated(doc)
  }

  /** base64 decoding, `pako.inflate`, `JSON.parse`; `None` where any of them throws. */
  function Decompress(blob: Blob): (r: Option<Json>)
    ensures r.None? <==> blob.Undecodable?
  {
    match blob
    case Deflated(doc) => Some(doc)
    case Undecodable(_) => None
  }

  lemma DecompressCompress(doc: Json)
    ensures Decompress(Compress(doc)) == Some(doc)
  {
  }
}
