/** Metric texts: JSON objects seen only through the members the prober reads. */
module Metric {
  import opened Bytes
  import opened Channel

  datatype Kind = Ping | Udp | Other

  /** The parsed object: its "id", read as a C int, and its "type", when present. */
  datatype Json = Json(id: Option<int32>, kind: Option<Kind>)

  /** reader.parse, as an unspecified function of the text; None is a parse error. */
  type Parser = Text -> Option<Json>

  /** The id of a text that parses and has both "id" and "type". */
  function Ident(parse: Parser, text: Text): Option<int> {
    match parse(text)
    case Some(Json(Some(id), Some(_))) => Some(id)
    case _ => None
  }

  /** generate_test builds a test from such a text. */
  predicate Probeable(parse: Parser, text: Text) {
    match parse(text)
    case Some(Json(Some(_), Some(kind))) => kind != Other
    case _ => false
  }

  const ADDCONF: int32 := 0
  const DELCONF: int32 := 1
  const EDITCONF: int32 := 2
  const REDISPORT: int32 := 6
}
