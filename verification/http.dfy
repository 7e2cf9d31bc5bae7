/** The responses the handlers write: a JSON object (`c.JSON`) or plain text (`c.String`). */
module Http {
  import opened Records

  datatype Reply = Json(status: int, body: map<string, Value>) | PlainText(status: int, text: string)

  /** The common `{"message": text}` response. */
  function Message(status: int, text: string): Reply {
    Json(status, map["message" := Str(text)])
  }

  /** The `{"error": text}` response. */
  function Error(status: int, text: string): Reply {
    Json(status, map["error" := Str(text)])
  }
}
