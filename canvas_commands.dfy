/** The tutor-to-whiteboard command check (src/shared/canvasCommands.js). */
module CanvasCommands {
  import opened Wrappers
  import opened JsonModel

  /** The values of `CANVAS_COMMANDS`. */
  const CommandNames: seq<string> := ["HIGHLIGHT", "ZOOM_TO", "ADD_TEXT", "CLEAR_HIGHLIGHTS"]

  /** `isCanvasCommand(payload)`. */
  function IsCanvasCommand(payload: Option<Json>): (accepted: bool)
    ensures accepted <==>
      payload.Some? && payload.value.JObj? && AsStr(Get(payload.value, "op")).Some?
      && AsStr(Get(payload.value, "op")).value in {"HIGHLIGHT", "ZOOM_TO", "ADD_TEXT", "CLEAR_HIGHLIGHTS"}
  {
    if !JsTruthy(payload) || !(payload.value.JArr? || payload.value.JObj?) then false
    else
      var op := Get(payload.value, "op");
      if !JsTruthy(op) || !op.value.JStr? then false
      else op.value.s in CommandNames
  }

  /** Only the `op` field decides: two objects with the same `op` are judged alike. */
  lemma OnlyOpMatters(p: seq<(string, Json)>, q: seq<(string, Json)>)
    requires Lookup(p, "op") == Lookup(q, "op")
    ensures IsCanvasCommand(Some(JObj(p))) == IsCanvasCommand(Some(JObj(q)))
  {
  }

  /** Anything that is not an object (absent, `null`, a string, a number) is rejected. */
  lemma NonObjectRejected(payload: Option<Json>)
    requires payload.None? || payload.value.JNull? || payload.value.JStr? || payload.value.JNum? || payload.value.JBool?
    ensures !IsCanvasCommand(payload)
  {
  }
}
